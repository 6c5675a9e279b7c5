/**
 * The leaderboard: a tally of wins and losses per player over completed
 * games, kept in a dictionary keyed by player id, and the three-key sort of
 * its entries (wins descending, losses ascending, username ascending).
 */
module Scores {
  import opened Wrappers

  /** A player id as the server stores it: a non-empty string. */
  type PlayerId = s: string | |s| > 0 witness "?"

  /** A reference to a player: the id, and the username when the reference is populated. */
  datatype PlayerRef = PlayerRef(id: PlayerId, username: Option<string>)

  datatype ScoredGame = ScoredGame(winner: Option<PlayerRef>, player1: Option<PlayerRef>, player2: Option<PlayerRef>)

  /** One leaderboard entry. */
  datatype Stats = Stats(id: PlayerId, username: string, wins: nat, losses: nat)

  datatype Column = WinsColumn | LossesColumn

  function Field(s: Stats, col: Column): nat {
    match col
    case WinsColumn => s.wins
    case LossesColumn => s.losses
  }

  /** The username shown for a reference, `Unknown` when absent or empty. */
  function NameOr(r: Option<PlayerRef>): string {
    if r.Some? && r.value.username.Some? && r.value.username.value != "" then r.value.username.value else "Unknown"
  }

  /** The loser of a decided game: player2 when player1 is the winner, otherwise player1. */
  function LoserOf(g: ScoredGame): (r: Option<PlayerRef>)
    requires g.winner.Some?
    ensures g.player1.Some? && g.player1.value.id == g.winner.value.id ==> r == g.player2
    ensures !(g.player1.Some? && g.player1.value.id == g.winner.value.id) ==> r == g.player1
  {
    if g.player1.Some? && g.player1.value.id == g.winner.value.id then g.player2 else g.player1
  }

  /** The player a game credits in a column: its winner, or its loser; nobody when it has no winner. */
  function Credited(g: ScoredGame, col: Column): (r: Option<PlayerRef>)
    ensures g.winner.None? ==> r.None?
    ensures col == WinsColumn ==> r == g.winner
    ensures r.Some? && col == LossesColumn ==> g.winner.Some?
    ensures g.winner.Some? && col == LossesColumn ==>
      r == if g.player1.Some? && g.player1.value.id == g.winner.value.id then g.player2 else g.player1
  {
    if g.winner.None? then None
    else match col
      case WinsColumn => g.winner
      case LossesColumn => LoserOf(g)
  }

  function CreditedId(g: ScoredGame, col: Column): Option<PlayerId> {
    var r := Credited(g, col);
    if r.Some? then Some(r.value.id) else None
  }

  /** The number of games that credit `id` in the column. */
  function Tally(games: seq<ScoredGame>, id: PlayerId, col: Column): nat
    decreases |games|
  {
    if games == [] then 0
    else Tally(games[..|games| - 1], id, col) + (if CreditedId(games[|games| - 1], col) == Some(id) then 1 else 0)
  }

  /** The number of games that credit anyone in the column. */
  function Credits(games: seq<ScoredGame>, col: Column): nat
    decreases |games|
  {
    if games == [] then 0
    else Credits(games[..|games| - 1], col) + (if CreditedId(games[|games| - 1], col).Some? then 1 else 0)
  }

  /** The number of games that have a winner. */
  function Decided(games: seq<ScoredGame>): nat
    decreases |games|
  {
    if games == [] then 0
    else Decided(games[..|games| - 1]) + (if games[|games| - 1].winner.Some? then 1 else 0)
  }

  function AddNew(seen: seq<PlayerId>, id: PlayerId): seq<PlayerId> {
    if id in seen then seen else seen + [id]
  }

  /** The ids of the dictionary, in the order their entries were created: per game, winner before loser. */
  function Appearances(games: seq<ScoredGame>): seq<PlayerId>
    decreases |games|
  {
    if games == [] then []
    else
      var g := games[|games| - 1];
      var seen := Appearances(games[..|games| - 1]);
      var afterWinner := if CreditedId(g, WinsColumn).Some? then AddNew(seen, CreditedId(g, WinsColumn).value) else seen;
      if CreditedId(g, LossesColumn).Some? then AddNew(afterWinner, CreditedId(g, LossesColumn).value) else afterWinner
  }

  /** The username an entry keeps: the one seen when the entry was created. */
  function FirstName(games: seq<ScoredGame>, id: PlayerId): string
    decreases |games|
  {
    if games == [] then "Unknown"
    else
      var g := games[|games| - 1];
      if id in Appearances(games[..|games| - 1]) then FirstName(games[..|games| - 1], id)
      else if CreditedId(g, WinsColumn) == Some(id) then NameOr(Credited(g, WinsColumn))
      else NameOr(Credited(g, LossesColumn))
  }

  /** The entries of the tally, in the dictionary's insertion order. */
  function TallyOf(games: seq<ScoredGame>): (r: seq<Stats>)
    ensures |r| == |Appearances(games)|
  {
    var ids := Appearances(games);
    seq(|ids|, k requires 0 <= k < |ids| =>
      Stats(ids[k], FirstName(games, ids[k]), Tally(games, ids[k], WinsColumn), Tally(games, ids[k], LossesColumn)))
  }

  /** One credit the tally loop applies: a win or a loss for a player, with the name that game shows for them. */
  datatype Credit = Credit(id: PlayerId, name: string, col: Column)

  /** The credits of one game: none without a winner, else a win for the winner and a loss for the loser, if any. */
  function GameCredits(g: ScoredGame): seq<Credit> {
    if g.winner.None? then []
    else
      var loser := LoserOf(g);
      [Credit(g.winner.value.id, NameOr(g.winner), WinsColumn)]
      + (if loser.Some? then [Credit(loser.value.id, NameOr(loser), LossesColumn)] else [])
  }

  function Bump(s: Stats, col: Column): Stats {
    match col
    case WinsColumn => s.(wins := s.wins + 1)
    case LossesColumn => s.(losses := s.losses + 1)
  }

  /** One dictionary update: the entry is created on the player's first appearance, then counted. */
  function Record(statsMap: map<PlayerId, Stats>, order: seq<PlayerId>, c: Credit): (map<PlayerId, Stats>, seq<PlayerId>) {
    var entry := if c.id in statsMap then statsMap[c.id] else Stats(c.id, c.name, 0, 0);
    (statsMap[c.id := Bump(entry, c.col)], if c.id in statsMap then order else order + [c.id])
  }

  /** The dictionary and its key order hold the tally of the games of `prefix`. */
  ghost predicate Tallied(prefix: seq<ScoredGame>, statsMap: map<PlayerId, Stats>, order: seq<PlayerId>) {
    && order == Appearances(prefix)
    && (forall id :: id in statsMap <==> id in order)
    && (forall id :: id !in statsMap ==> Tally(prefix, id, WinsColumn) == 0 && Tally(prefix, id, LossesColumn) == 0)
    && (forall id :: id in statsMap ==>
          statsMap[id] == Stats(id, FirstName(prefix, id), Tally(prefix, id, WinsColumn), Tally(prefix, id, LossesColumn)))
  }

  /** How the tally's ingredients change when one game is appended. */
  lemma SnocFacts(prefix: seq<ScoredGame>, g: ScoredGame, id: PlayerId)
    ensures var seen := Appearances(prefix);
      var afterWinner := if CreditedId(g, WinsColumn).Some? then AddNew(seen, CreditedId(g, WinsColumn).value) else seen;
      Appearances(prefix + [g]) ==
        if CreditedId(g, LossesColumn).Some? then AddNew(afterWinner, CreditedId(g, LossesColumn).value) else afterWinner
    ensures Tally(prefix + [g], id, WinsColumn) == Tally(prefix, id, WinsColumn) + (if CreditedId(g, WinsColumn) == Some(id) then 1 else 0)
    ensures Tally(prefix + [g], id, LossesColumn) == Tally(prefix, id, LossesColumn) + (if CreditedId(g, LossesColumn) == Some(id) then 1 else 0)
    ensures FirstName(prefix + [g], id) ==
      if id in Appearances(prefix) then FirstName(prefix, id)
      else if CreditedId(g, WinsColumn) == Some(id) then NameOr(Credited(g, WinsColumn))
      else NameOr(Credited(g, LossesColumn))
  {
    var q := prefix + [g];
    assert q[..|q| - 1] == prefix && q[|q| - 1] == g;
  }

  /** A game without a winner leaves the tally of its prefix unchanged. */
  lemma TalliedSkip(prefix: seq<ScoredGame>, g: ScoredGame, statsMap: map<PlayerId, Stats>, order: seq<PlayerId>)
    requires Tallied(prefix, statsMap, order) && g.winner.None?
    ensures Tallied(prefix + [g], statsMap, order)
  {
    forall id {
      SnocFacts(prefix, g, id);
    }
  }

  /** A decided game without a loser: recording the win gives the tally of the extended prefix. */
  lemma TalliedWin(prefix: seq<ScoredGame>, g: ScoredGame, statsMap: map<PlayerId, Stats>, order: seq<PlayerId>)
    requires Tallied(prefix, statsMap, order) && g.winner.Some? && LoserOf(g).None?
    ensures var r := Record(statsMap, order, GameCredits(g)[0]); Tallied(prefix + [g], r.0, r.1)
  {
    var q := prefix + [g];
    var w := GameCredits(g)[0];
    var r := Record(statsMap, order, w);
    forall id {
      SnocFacts(prefix, g, id);
    }
    assert r.1 == Appearances(q);
    forall id | id in r.0
      ensures r.0[id] == Stats(id, FirstName(q, id), Tally(q, id, WinsColumn), Tally(q, id, LossesColumn))
    {
      if id != w.id {
        assert r.0[id] == statsMap[id];
      }
    }
  }

  /** A decided game with a loser: recording the win, then the loss, gives the tally of the extended prefix. */
  lemma TalliedWinLoss(prefix: seq<ScoredGame>, g: ScoredGame, statsMap: map<PlayerId, Stats>, order: seq<PlayerId>)
    requires Tallied(prefix, statsMap, order) && g.winner.Some? && LoserOf(g).Some?
    ensures var r1 := Record(statsMap, order, GameCredits(g)[0]);
      var r2 := Record(r1.0, r1.1, GameCredits(g)[1]);
      Tallied(prefix + [g], r2.0, r2.1)
  {
    var q := prefix + [g];
    var w := GameCredits(g)[0];
    var l := GameCredits(g)[1];
    var r1 := Record(statsMap, order, w);
    var r2 := Record(r1.0, r1.1, l);
    SnocFacts(prefix, g, w.id);
    assert r2.1 == Appearances(q);
    forall id | id !in r2.0
      ensures Tally(q, id, WinsColumn) == 0 && Tally(q, id, LossesColumn) == 0
    {
      SnocFacts(prefix, g, id);
    }
    forall id | id in r2.0
      ensures r2.0[id] == Stats(id, FirstName(q, id), Tally(q, id, WinsColumn), Tally(q, id, LossesColumn))
    {
      SnocFacts(prefix, g, id);
      if id != l.id && id != w.id {
        assert r2.0[id] == statsMap[id];
      }
    }
  }

  /** The tally of all the games, read off in key order, is the leaderboard's entry list. */
  lemma TalliedEntries(games: seq<ScoredGame>, statsMap: map<PlayerId, Stats>, order: seq<PlayerId>)
    requires Tallied(games, statsMap, order)
    ensures forall k :: 0 <= k < |order| ==> order[k] in statsMap
    ensures seq(|order|, k requires 0 <= k < |order| => statsMap[order[k]]) == TallyOf(games)
  {
  }

  /**
   * One dictionary update of the tally loop: a player's entry is created with
   * no wins and no losses on first appearance, then the column is incremented.
   */
  method RecordCredit(statsMap: map<PlayerId, Stats>, order: seq<PlayerId>, id: PlayerId, name: string, col: Column)
    returns (newMap: map<PlayerId, Stats>, newOrder: seq<PlayerId>)
    ensures newMap == Record(statsMap, order, Credit(id, name, col)).0
    ensures newOrder == Record(statsMap, order, Credit(id, name, col)).1
  {
    ghost var entry := if id in statsMap then statsMap[id] else Stats(id, name, 0, 0);
    newMap, newOrder := statsMap, order;
    if id !in newMap {
      newMap := newMap[id := Stats(id, name, 0, 0)];
      newOrder := newOrder + [id];
    }
    if col == WinsColumn {
      newMap := newMap[id := newMap[id].(wins := newMap[id].wins + 1)];
    } else {
      newMap := newMap[id := newMap[id].(losses := newMap[id].losses + 1)];
    }
    assert newMap == statsMap[id := Bump(entry, col)];
  }

  /**
   * The tally loop: games without a winner are skipped; an entry is created
   * with no wins and no losses on a player's first appearance, then the
   * winner gains a win and the loser, if any, a loss.
   */
  method TallyScores(games: seq<ScoredGame>) returns (entries: seq<Stats>)
    ensures entries == TallyOf(games)
  {
    var statsMap: map<PlayerId, Stats> := map[];
    var order: seq<PlayerId> := [];
    for i := 0 to |games|
      invariant Tallied(games[..i], statsMap, order)
    {
      var game := games[i];
      assert games[..i + 1] == games[..i] + [game];
      if game.winner.None? {
        TalliedSkip(games[..i], game, statsMap, order);
        continue;
      }
      var winnerId := game.winner.value.id;
      var winnerName := NameOr(game.winner);
      var loser: Option<PlayerRef>;
      if game.player1.Some? && game.player1.value.id == winnerId {
        loser := game.player2;
      } else {
        loser := game.player1;
      }
      var loserName := NameOr(loser);
      var winMap, winOrder := RecordCredit(statsMap, order, winnerId, winnerName, WinsColumn);
      if loser.None? {
        TalliedWin(games[..i], game, statsMap, order);
        statsMap, order := winMap, winOrder;
      } else {
        var lossMap, lossOrder := RecordCredit(winMap, winOrder, loser.value.id, loserName, LossesColumn);
        TalliedWinLoss(games[..i], game, statsMap, order);
        statsMap, order := lossMap, lossOrder;
      }
    }
    assert games[..|games|] == games;
    TalliedEntries(games, statsMap, order);
    entries := seq(|order|, k requires 0 <= k < |order| => statsMap[order[k]]);
  }

  predicate DistinctIds(ids: seq<PlayerId>) {
    forall i, j :: 0 <= i < j < |ids| ==> ids[i] != ids[j]
  }

  /** No player has two entries. */
  lemma {:induction false} AppearancesDistinct(games: seq<ScoredGame>)
    ensures DistinctIds(Appearances(games))
    decreases |games|
  {
    if games != [] {
      AppearancesDistinct(games[..|games| - 1]);
    }
  }

  /** A player has an entry exactly when some game credits them with a win or a loss. */
  lemma {:induction false} AppearsIffCredited(games: seq<ScoredGame>, id: PlayerId)
    ensures id in Appearances(games) <==>
      exists i :: 0 <= i < |games| && (CreditedId(games[i], WinsColumn) == Some(id) || CreditedId(games[i], LossesColumn) == Some(id))
    decreases |games|
  {
    if games != [] {
      var init := games[..|games| - 1];
      AppearsIffCredited(init, id);
      assert forall i :: 0 <= i < |init| ==> init[i] == games[i];
    }
  }

  /** A game without a winner leaves the tally as it was. */
  lemma UndecidedGameAddsNothing(games: seq<ScoredGame>, g: ScoredGame)
    requires g.winner.None?
    ensures TallyOf(games + [g]) == TallyOf(games)
  {
    assert (games + [g])[..|games|] == games;
  }

  /** Every decided game credits one win; the losses column credits no more games than that. */
  lemma {:induction false} CreditsBounded(games: seq<ScoredGame>)
    ensures Credits(games, WinsColumn) == Decided(games)
    ensures Credits(games, LossesColumn) <= Credits(games, WinsColumn)
    decreases |games|
  {
    if games != [] {
      CreditsBounded(games[..|games| - 1]);
    }
  }

  /** The number of occurrences of `x` in `ids`. */
  function Occurrences(ids: seq<PlayerId>, x: PlayerId): nat {
    if ids == [] then 0 else (if ids[0] == x then 1 else 0) + Occurrences(ids[1..], x)
  }

  lemma {:induction false} OccurrencesDistinct(ids: seq<PlayerId>, x: PlayerId)
    requires DistinctIds(ids)
    ensures Occurrences(ids, x) == if x in ids then 1 else 0
  {
    if ids != [] {
      OccurrencesDistinct(ids[1..], x);
      assert ids[0] == x ==> x !in ids[1..];
      assert ids == [ids[0]] + ids[1..];
    }
  }

  /** The tally of a column summed over a list of ids. */
  function SumTally(ids: seq<PlayerId>, games: seq<ScoredGame>, col: Column): nat {
    if ids == [] then 0 else Tally(games, ids[0], col) + SumTally(ids[1..], games, col)
  }

  lemma {:induction false} SumTallySnoc(ids: seq<PlayerId>, games: seq<ScoredGame>, g: ScoredGame, col: Column)
    ensures SumTally(ids, games + [g], col) ==
      SumTally(ids, games, col) + (if CreditedId(g, col).Some? then Occurrences(ids, CreditedId(g, col).value) else 0)
  {
    assert (games + [g])[..|games|] == games;
    if ids != [] {
      SumTallySnoc(ids[1..], games, g, col);
    }
  }

  lemma {:induction false} SumTallyNoGames(ids: seq<PlayerId>, col: Column)
    ensures SumTally(ids, [], col) == 0
  {
    if ids != [] {
      SumTallyNoGames(ids[1..], col);
    }
  }

  /** Summed over distinct ids that cover every credited player, the tally counts each credit once. */
  lemma {:induction false} SumTallyIsCredits(ids: seq<PlayerId>, games: seq<ScoredGame>, col: Column)
    requires DistinctIds(ids)
    requires forall i :: 0 <= i < |games| && CreditedId(games[i], col).Some? ==> CreditedId(games[i], col).value in ids
    ensures SumTally(ids, games, col) == Credits(games, col)
    decreases |games|
  {
    if games == [] {
      SumTallyNoGames(ids, col);
    } else {
      var init := games[..|games| - 1];
      var g := games[|games| - 1];
      assert forall i :: 0 <= i < |init| ==> init[i] == games[i];
      SumTallyIsCredits(ids, init, col);
      assert games == init + [g];
      SumTallySnoc(ids, init, g, col);
      assert Credits(games, col) == Credits(init, col) + (if CreditedId(g, col).Some? then 1 else 0);
      if CreditedId(g, col).Some? {
        assert CreditedId(games[|games| - 1], col).value in ids;
        OccurrencesDistinct(ids, CreditedId(g, col).value);
      }
    }
  }

  /** The sum of a column over entries. */
  function Total(s: seq<Stats>, col: Column): nat {
    if s == [] then 0 else Field(s[0], col) + Total(s[1..], col)
  }

  lemma {:induction false} TotalIsSumTally(s: seq<Stats>, ids: seq<PlayerId>, games: seq<ScoredGame>, col: Column)
    requires |s| == |ids|
    requires forall k :: 0 <= k < |s| ==> Field(s[k], col) == Tally(games, ids[k], col)
    ensures Total(s, col) == SumTally(ids, games, col)
  {
    if s != [] {
      TotalIsSumTally(s[1..], ids[1..], games, col);
    }
  }

  /** Total wins equal the number of decided games; total losses are at most total wins. */
  lemma TallyTotals(games: seq<ScoredGame>)
    ensures Total(TallyOf(games), WinsColumn) == Decided(games)
    ensures Total(TallyOf(games), LossesColumn) <= Total(TallyOf(games), WinsColumn)
  {
    var ids := Appearances(games);
    AppearancesDistinct(games);
    forall i, id | 0 <= i < |games| && (CreditedId(games[i], WinsColumn) == Some(id) || CreditedId(games[i], LossesColumn) == Some(id))
      ensures id in ids
    {
      AppearsIffCredited(games, id);
    }
    TotalIsSumTally(TallyOf(games), ids, games, WinsColumn);
    TotalIsSumTally(TallyOf(games), ids, games, LossesColumn);
    SumTallyIsCredits(ids, games, WinsColumn);
    SumTallyIsCredits(ids, games, LossesColumn);
    CreditsBounded(games);
  }

  lemma {:induction false} TotalAppend(a: seq<Stats>, b: seq<Stats>, col: Column)
    ensures Total(a + b, col) == Total(a, col) + Total(b, col)
  {
    if a != [] {
      assert a + b != [] && (a + b)[0] == a[0];
      assert (a + b)[1..] == a[1..] + b;
      TotalAppend(a[1..], b, col);
    } else {
      assert a + b == b;
    }
  }

  lemma TotalRemove(b: seq<Stats>, k: nat, col: Column)
    requires k < |b|
    ensures Total(b, col) == Field(b[k], col) + Total(b[..k] + b[k + 1..], col)
  {
    assert b == b[..k] + ([b[k]] + b[k + 1..]);
    TotalAppend(b[..k], [b[k]] + b[k + 1..], col);
    TotalAppend(b[..k], b[k + 1..], col);
  }

  lemma MultisetRemove(b: seq<Stats>, k: nat)
    requires k < |b|
    ensures multiset(b[..k] + b[k + 1..]) == multiset(b) - multiset{b[k]}
  {
    assert b == b[..k] + [b[k]] + b[k + 1..];
  }

  /** Reordering entries does not change a column's total. */
  lemma {:induction false} TotalOfPermutation(a: seq<Stats>, b: seq<Stats>, col: Column)
    requires multiset(a) == multiset(b)
    ensures Total(a, col) == Total(b, col)
    decreases |a|
  {
    if a == [] {
      assert |b| == |multiset(b)| == 0;
    } else {
      var x := a[0];
      assert x in multiset(b);
      var k :| 0 <= k < |b| && b[k] == x;
      MultisetRemove(b, k);
      assert a == [x] + a[1..];
      assert multiset(a[1..]) == multiset(a) - multiset{x};
      TotalOfPermutation(a[1..], b[..k] + b[k + 1..], col);
      TotalRemove(b, k, col);
    }
  }

  /** Code-point order on strings, standing in for `localeCompare`: negative, zero or positive. */
  function StrCompare(a: string, b: string): (r: int)
    ensures -1 <= r <= 1
    ensures r == 0 <==> a == b
  {
    if a == [] && b == [] then 0
    else if a == [] then -1
    else if b == [] then 1
    else if a[0] < b[0] then -1
    else if a[0] > b[0] then 1
    else
      var r := StrCompare(a[1..], b[1..]);
      assert a == [a[0]] + a[1..] && b == [b[0]] + b[1..];
      r
  }

  lemma {:induction false} StrCompareAntisymmetric(a: string, b: string)
    ensures StrCompare(a, b) == -StrCompare(b, a)
  {
    if a != [] && b != [] && a[0] == b[0] {
      StrCompareAntisymmetric(a[1..], b[1..]);
    }
  }

  lemma {:induction false} StrCompareTransitive(a: string, b: string, c: string)
    requires StrCompare(a, b) <= 0 && StrCompare(b, c) <= 0
    ensures StrCompare(a, c) <= 0
  {
    if a != [] && b != [] && c != [] && a[0] == b[0] && b[0] == c[0] {
      StrCompareTransitive(a[1..], b[1..], c[1..]);
    }
  }

  /** The sort comparator: wins descending, then losses ascending, then username. */
  function Compare(a: Stats, b: Stats): (r: int)
    ensures r == 0 <==> a.wins == b.wins && a.losses == b.losses && a.username == b.username
    ensures a.wins > b.wins ==> r < 0
    ensures a.wins == b.wins && a.losses < b.losses ==> r < 0
  {
    if a.wins != b.wins then b.wins - a.wins
    else if a.losses != b.losses then a.losses - b.losses
    else StrCompare(a.username, b.username)
  }

  /** Entry `a` may come before entry `b`: more wins, or as many and fewer losses, or both equal and a username not after. */
  lemma CompareMeaning(a: Stats, b: Stats)
    ensures Compare(a, b) <= 0 <==>
      a.wins > b.wins
      || (a.wins == b.wins && a.losses < b.losses)
      || (a.wins == b.wins && a.losses == b.losses && StrCompare(a.username, b.username) <= 0)
  {
  }

  lemma CompareTotal(a: Stats, b: Stats)
    ensures Compare(a, b) > 0 ==> Compare(b, a) < 0
  {
    StrCompareAntisymmetric(a.username, b.username);
  }

  lemma CompareTransitive(a: Stats, b: Stats, c: Stats)
    requires Compare(a, b) <= 0 && Compare(b, c) <= 0
    ensures Compare(a, c) <= 0
  {
    if a.wins == b.wins == c.wins && a.losses == b.losses == c.losses {
      StrCompareTransitive(a.username, b.username, c.username);
    }
  }

  predicate Sorted(s: seq<Stats>) {
    forall i, j :: 0 <= i < j < |s| ==> Compare(s[i], s[j]) <= 0
  }

  lemma InsertKeepsSorted(s: seq<Stats>, j: nat, x: Stats)
    requires Sorted(s) && j <= |s|
    requires forall k :: 0 <= k < j ==> Compare(s[k], x) <= 0
    requires forall k :: j <= k < |s| ==> Compare(x, s[k]) <= 0
    ensures Sorted(s[..j] + [x] + s[j..])
  {
  }

  lemma BeforeInsertionPoint(s: seq<Stats>, j: nat, x: Stats)
    requires Sorted(s) && 0 < j <= |s|
    requires Compare(s[j - 1], x) <= 0
    ensures forall k :: 0 <= k < j ==> Compare(s[k], x) <= 0
  {
    forall k | 0 <= k < j - 1
      ensures Compare(s[k], x) <= 0
    {
      CompareTransitive(s[k], s[j - 1], x);
    }
  }

  lemma InsertMultiset(s: seq<Stats>, j: nat, x: Stats)
    requires j <= |s|
    ensures multiset(s[..j] + [x] + s[j..]) == multiset(s) + multiset{x}
  {
    assert s == s[..j] + s[j..];
  }

  /** Inserts `x` into a sorted list after every entry that does not order after it. */
  method InsertStat(sorted: seq<Stats>, x: Stats) returns (r: seq<Stats>)
    requires Sorted(sorted)
    ensures Sorted(r)
    ensures multiset(r) == multiset(sorted) + multiset{x}
  {
    var j := |sorted|;
    while j > 0 && Compare(sorted[j - 1], x) > 0
      invariant 0 <= j <= |sorted|
      invariant forall k :: j <= k < |sorted| ==> Compare(x, sorted[k]) <= 0
    {
      CompareTotal(sorted[j - 1], x);
      j := j - 1;
    }
    if j > 0 {
      BeforeInsertionPoint(sorted, j, x);
    }
    InsertKeepsSorted(sorted, j, x);
    InsertMultiset(sorted, j, x);
    r := sorted[..j] + [x] + sorted[j..];
  }

  /** Sorts the entries with the comparator; the engine's algorithm is not modelled, an insertion sort stands in. */
  method SortStats(entries: seq<Stats>) returns (sorted: seq<Stats>)
    ensures Sorted(sorted)
    ensures multiset(sorted) == multiset(entries)
  {
    sorted := [];
    for i := 0 to |entries|
      invariant Sorted(sorted)
      invariant multiset(sorted) == multiset(entries[..i])
    {
      assert entries[..i + 1] == entries[..i] + [entries[i]];
      sorted := InsertStat(sorted, entries[i]);
    }
    assert entries[..|entries|] == entries;
  }

  /**
   * The high-score computation: the tally of the fetched completed games,
   * sorted by the comparator; its wins add up to the decided games and its
   * losses to no more than that.
   */
  method FetchHighScores(games: seq<ScoredGame>) returns (userStats: seq<Stats>)
    ensures Sorted(userStats)
    ensures multiset(userStats) == multiset(TallyOf(games))
    ensures Total(userStats, WinsColumn) == Decided(games)
    ensures Total(userStats, LossesColumn) <= Total(userStats, WinsColumn)
  {
    var entries := TallyScores(games);
    userStats := SortStats(entries);
    TallyTotals(games);
    TotalOfPermutation(entries, userStats, WinsColumn);
    TotalOfPermutation(entries, userStats, LossesColumn);
  }
}
