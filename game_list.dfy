/**
 * The games list page: sorting fetched games into seven disjoint lists by
 * status and by whether the current user plays in them, the per-game "join"
 * and "is in game" predicates, and the gate on creating a new game.
 */
module GameList {
  import opened Wrappers
  import opened GameData

  /** A listed game; a missing or empty status or player id is `None`. */
  datatype GameSummary = GameSummary(
    id: string,
    status: Option<GameStatus>,
    player1: Option<UserId>,
    player2: Option<UserId>)

  datatype Category =
    | MyOpen | OpenForOthers | MyActive | MyCompleted | Others | PublicActive | PublicCompleted

  /** The seven lists `categorizeGames` returns. */
  datatype Categorized = Categorized(
    myOpenGames: seq<GameSummary>,
    openGames: seq<GameSummary>,
    myActiveGames: seq<GameSummary>,
    myCompletedGames: seq<GameSummary>,
    otherGames: seq<GameSummary>,
    publicActiveGames: seq<GameSummary>,
    publicCompletedGames: seq<GameSummary>)

  const NoGames: Categorized := Categorized([], [], [], [], [], [], [])

  function Get(c: Categorized, k: Category): seq<GameSummary> {
    match k
    case MyOpen => c.myOpenGames
    case OpenForOthers => c.openGames
    case MyActive => c.myActiveGames
    case MyCompleted => c.myCompletedGames
    case Others => c.otherGames
    case PublicActive => c.publicActiveGames
    case PublicCompleted => c.publicCompletedGames
  }

  /** The lists with `g` pushed onto the one for category `k`. */
  function Push(c: Categorized, k: Category, g: GameSummary): (r: Categorized)
    ensures forall j :: Get(r, j) == Get(c, j) + (if j == k then [g] else [])
  {
    match k
    case MyOpen => c.(myOpenGames := c.myOpenGames + [g])
    case OpenForOthers => c.(openGames := c.openGames + [g])
    case MyActive => c.(myActiveGames := c.myActiveGames + [g])
    case MyCompleted => c.(myCompletedGames := c.myCompletedGames + [g])
    case Others => c.(otherGames := c.otherGames + [g])
    case PublicActive => c.(publicActiveGames := c.publicActiveGames + [g])
    case PublicCompleted => c.(publicCompletedGames := c.publicCompletedGames + [g])
  }

  /** A game the page does not skip: it has a status and a player1 id. */
  predicate WellFormed(g: GameSummary) {
    g.status.Some? && g.player1.Some?
  }

  /** The list a game goes to for the given user (`None` when logged out), if any. */
  function Bucket(g: GameSummary, user: Option<UserId>): (r: Option<Category>)
    ensures !WellFormed(g) ==> r.None?
    ensures r == Some(MyOpen) <==>
      user.Some? && WellFormed(g) && g.status == Some(Open) && g.player1 == user && g.player2.None?
    ensures r == Some(OpenForOthers) <==>
      user.Some? && WellFormed(g) && g.status == Some(Open) && g.player1 != user && g.player2.None?
    ensures r == Some(MyActive) <==>
      user.Some? && WellFormed(g) && g.status == Some(Active) && (g.player1 == user || g.player2 == user)
    ensures r == Some(MyCompleted) <==>
      user.Some? && WellFormed(g) && g.status == Some(Completed) && (g.player1 == user || g.player2 == user)
    ensures r == Some(Others) <==>
      user.Some? && WellFormed(g) && (g.status == Some(Active) || g.status == Some(Completed))
      && g.player1 != user && g.player2 != user && g.player2.Some?
    ensures r == Some(PublicActive) <==>
      user.None? && WellFormed(g) && g.status == Some(Active) && g.player2.Some?
    ensures r == Some(PublicCompleted) <==>
      user.None? && WellFormed(g) && g.status == Some(Completed) && g.player2.Some?
  {
    if !WellFormed(g) then None
    else
      var isP1Me := g.player1 == user;
      var isP2Me := g.player2.Some? && g.player2 == user;
      var isMyGame := isP1Me || isP2Me;
      if user.Some? then
        match g.status.value
        case Open =>
          if isP1Me && g.player2.None? then Some(MyOpen)
          else if g.player1 != user && g.player2.None? then Some(OpenForOthers)
          else None
        case Active =>
          if isMyGame then Some(MyActive)
          else if g.player2.Some? then Some(Others)
          else None
        case Completed =>
          if isMyGame then Some(MyCompleted)
          else if g.player2.Some? then Some(Others)
          else None
        case PendingSetup => None
      else if g.status == Some(Active) && g.player2.Some? then Some(PublicActive)
      else if g.status == Some(Completed) && g.player2.Some? then Some(PublicCompleted)
      else None
  }

  /** The games of the list that go to category `k`, in list order. */
  function InCategory(games: seq<GameSummary>, user: Option<UserId>, k: Category): seq<GameSummary>
    decreases |games|
  {
    if games == [] then []
    else
      var last := games[|games| - 1];
      InCategory(games[..|games| - 1], user, k) + (if Bucket(last, user) == Some(k) then [last] else [])
  }

  /**
   * Sorts the fetched games: a list that is not an array gives seven empty
   * lists; otherwise each category holds, in list order, exactly the games
   * whose bucket it is.
   */
  method CategorizeGames(gamesList: Option<seq<GameSummary>>, currentUserId: Option<UserId>) returns (r: Categorized)
    ensures gamesList.None? ==> r == NoGames
    ensures gamesList.Some? ==> forall k :: Get(r, k) == InCategory(gamesList.value, currentUserId, k)
  {
    if gamesList.None? {
      return NoGames;
    }
    var games := gamesList.value;
    var categorized := NoGames;
    for i := 0 to |games|
      invariant forall k :: Get(categorized, k) == InCategory(games[..i], currentUserId, k)
    {
      var game := games[i];
      assert games[..i + 1][..i] == games[..i];
      if game.status.None? || game.player1.None? {
        continue;
      }
      var isP1Me := game.player1 == currentUserId;
      var isP2Me := game.player2.Some? && game.player2 == currentUserId;
      var isMyGame := isP1Me || isP2Me;
      if currentUserId.Some? {
        if game.status == Some(Open) {
          if isP1Me && game.player2.None? {
            categorized := Push(categorized, MyOpen, game);
          } else if game.player1 != currentUserId && game.player2.None? {
            categorized := Push(categorized, OpenForOthers, game);
          }
        } else if game.status == Some(Active) {
          if isMyGame {
            categorized := Push(categorized, MyActive, game);
          } else if game.player2.Some? {
            categorized := Push(categorized, Others, game);
          }
        } else if game.status == Some(Completed) {
          if isMyGame {
            categorized := Push(categorized, MyCompleted, game);
          } else if game.player2.Some? {
            categorized := Push(categorized, Others, game);
          }
        }
      } else {
        if game.status == Some(Active) && game.player2.Some? {
          categorized := Push(categorized, PublicActive, game);
        } else if game.status == Some(Completed) && game.player2.Some? {
          categorized := Push(categorized, PublicCompleted, game);
        }
      }
    }
    assert games[..|games|] == games;
    return categorized;
  }

  /** The number of games of the list that go to some category. */
  function CountBucketed(games: seq<GameSummary>, user: Option<UserId>): (n: nat)
    ensures n <= |games|
    decreases |games|
  {
    if games == [] then 0
    else CountBucketed(games[..|games| - 1], user) + (if Bucket(games[|games| - 1], user).Some? then 1 else 0)
  }

  function TotalListed(games: seq<GameSummary>, user: Option<UserId>): nat {
    |InCategory(games, user, MyOpen)| + |InCategory(games, user, OpenForOthers)|
    + |InCategory(games, user, MyActive)| + |InCategory(games, user, MyCompleted)|
    + |InCategory(games, user, Others)| + |InCategory(games, user, PublicActive)|
    + |InCategory(games, user, PublicCompleted)|
  }

  /** The seven lists together hold each well-placed game once: no game is listed twice. */
  lemma {:induction false} CategoriesAreDisjoint(games: seq<GameSummary>, user: Option<UserId>)
    ensures TotalListed(games, user) == CountBucketed(games, user) <= |games|
    decreases |games|
  {
    if games != [] {
      CategoriesAreDisjoint(games[..|games| - 1], user);
    }
  }

  /** A category is empty exactly when no game of the list goes to it. */
  lemma {:induction false} InCategoryEmpty(games: seq<GameSummary>, user: Option<UserId>, k: Category)
    ensures InCategory(games, user, k) == [] <==> forall i :: 0 <= i < |games| ==> Bucket(games[i], user) != Some(k)
    decreases |games|
  {
    if games != [] {
      var init := games[..|games| - 1];
      InCategoryEmpty(init, user, k);
      assert forall i :: 0 <= i < |init| ==> init[i] == games[i];
    }
  }

  /** `canJoin`: an Open game, a logged-in user, who is not its player1. */
  function CanJoin(g: GameSummary, user: Option<UserId>): (r: bool)
    ensures r <==> g.status == Some(Open) && user.Some? && g.player1 != user
  {
    var userIsPlayer1 := user.Some? && g.player1.Some? && g.player1 == user;
    g.status == Some(Open) && !userIsPlayer1 && user.Some?
  }

  /** `userIsInGame`: a logged-in user who is either player. */
  function UserIsInGame(g: GameSummary, user: Option<UserId>): (r: bool)
    ensures r <==> user.Some? && (g.player1 == user || g.player2 == user)
  {
    var userIsPlayer1 := user.Some? && g.player1.Some? && g.player1 == user;
    var userIsPlayer2 := user.Some? && g.player2.Some? && g.player2 == user;
    userIsPlayer1 || userIsPlayer2
  }

  /**
   * For a logged-in user, a well-formed Open game with a free slot is listed
   * as open for others exactly when the user can join it, and an Active or
   * Completed one is listed among the user's own exactly when the user is in it.
   */
  lemma ListingMatchesGameItem(g: GameSummary, user: Option<UserId>)
    requires user.Some? && WellFormed(g)
    ensures g.status == Some(Open) && g.player2.None? ==>
      (Bucket(g, user) == Some(OpenForOthers) <==> CanJoin(g, user))
    ensures g.status == Some(Active) ==> (Bucket(g, user) == Some(MyActive) <==> UserIsInGame(g, user))
    ensures g.status == Some(Completed) ==> (Bucket(g, user) == Some(MyCompleted) <==> UserIsInGame(g, user))
  {
  }

  datatype CreateOutcome = LoginRequired | AlreadyHasGames(hasOpen: bool, hasActive: bool) | GoToPlacement

  /** `handleCreateGame`: log in first; refuse while the user has an open or an active game. */
  function HandleCreateGame(isAuthenticated: bool, user: Option<UserId>, games: Categorized): (r: CreateOutcome)
    ensures r == LoginRequired <==> !isAuthenticated || user.None?
    ensures r == GoToPlacement <==> isAuthenticated && user.Some? && games.myOpenGames == [] && games.myActiveGames == []
    ensures r.AlreadyHasGames? ==> r.hasOpen == (games.myOpenGames != []) && r.hasActive == (games.myActiveGames != [])
  {
    if !isAuthenticated || user.None? then LoginRequired
    else
      var hasMyOpenGames := |games.myOpenGames| > 0;
      var hasMyActiveGames := |games.myActiveGames| > 0;
      if hasMyOpenGames || hasMyActiveGames then AlreadyHasGames(hasMyOpenGames, hasMyActiveGames)
      else GoToPlacement
  }

  /**
   * On the lists built from the fetched games, a logged-in user may create a
   * game exactly when no listed game is an Open game of theirs still waiting
   * for player2, nor an Active game they play in.
   */
  lemma CreateGameGate(games: seq<GameSummary>, user: UserId, lists: Categorized)
    requires forall k :: Get(lists, k) == InCategory(games, Some(user), k)
    ensures HandleCreateGame(true, Some(user), lists) == GoToPlacement <==>
      forall i :: 0 <= i < |games| && WellFormed(games[i]) ==>
        !(games[i].status == Some(Open) && games[i].player1 == Some(user) && games[i].player2.None?)
        && !(games[i].status == Some(Active) && (games[i].player1 == Some(user) || games[i].player2 == Some(user)))
  {
    assert lists.myOpenGames == Get(lists, MyOpen) && lists.myActiveGames == Get(lists, MyActive);
    InCategoryEmpty(games, Some(user), MyOpen);
    InCategoryEmpty(games, Some(user), MyActive);
  }
}
