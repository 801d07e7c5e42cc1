/**
 * The most-played champions panel: the matches are narrowed to a game type,
 * rolled up per champion, sorted by games played (most first) and cut to
 * `limit` entries. The older panel computes the same list over fewer columns.
 */
module TopChampions {
  import opened RiotTypes
  import Seqs
  import Sorting
  import Rounding
  import Formatters
  import opened ChampionStats

  const AllGames: string := "Tous"
  const RankedGames: string := "Ranked"
  const NormalGames: string := "Normal"
  const DefaultLimit: int := 5

  const NoGamesMessage: string := "Aucune partie trouvée pour ce mode de jeu"
  const NoChampionMessage: string := "Aucun champion trouvé"

  /** The game-type filter: everything, ranked queues (420, 440), normal queues (400, 430); any other label keeps nothing. */
  predicate Keep(gameType: string, m: Match) {
    gameType == AllGames
    || (gameType == RankedGames && (m.queueId == SoloDuoQueue || m.queueId == FlexQueue))
    || (gameType == NormalGames && (m.queueId == DraftQueue || m.queueId == BlindQueue))
  }

  function FilterMatches(matches: seq<Match>, gameType: string): (r: seq<Match>)
    ensures |r| <= |matches|
    ensures forall i :: 0 <= i < |r| ==> r[i] in matches && Keep(gameType, r[i])
    ensures forall i :: 0 <= i < |matches| && Keep(gameType, matches[i]) ==> matches[i] in r
  {
    Seqs.Filter(matches, m => Keep(gameType, m))
  }

  /** The per-champion totals of the filtered matches. */
  function Stats(matches: seq<Match>, puuid: string, gameType: string): seq<Totals> {
    Rollup(PlayerRows(FilterMatches(matches, gameType), puuid))
  }

  /** Sort key for `b.games - a.games`. */
  function MostGamesFirst(t: Totals): real {
    -(t.games as real)
  }

  /**
   * The champions shown: the totals sorted by games played, most first, cut to `limit`.
   * The list is exactly the first `min(limit, champions)` entries of the sorted totals.
   */
  function Top(matches: seq<Match>, puuid: string, gameType: string, limit: int): (r: seq<Totals>)
    ensures limit >= 0 ==> |r| <= limit
    ensures limit >= 0 ==> |r| == if limit < |Stats(matches, puuid, gameType)| then limit else |Stats(matches, puuid, gameType)|
    ensures |r| <= |Stats(matches, puuid, gameType)|
    ensures r == Sorting.SortBy(Stats(matches, puuid, gameType), MostGamesFirst)[..|r|]
    ensures forall i, j :: 0 <= i < j < |r| ==> r[i].games >= r[j].games
    ensures forall i :: 0 <= i < |r| ==> r[i] in Stats(matches, puuid, gameType)
  {
    var sorted := Sorting.SortBy(Stats(matches, puuid, gameType), MostGamesFirst);
    SortedPrefix(Stats(matches, puuid, gameType), sorted, limit);
    Seqs.JsSlice(sorted, 0, limit)
  }

  /** A prefix of the sorted totals keeps the order and only holds totals of the rollup. */
  lemma SortedPrefix(stats: seq<Totals>, sorted: seq<Totals>, limit: int)
    requires Sorting.SortedBy(sorted, MostGamesFirst) && multiset(sorted) == multiset(stats)
    ensures var r := Seqs.JsSlice(sorted, 0, limit);
            && (limit >= 0 ==> |r| <= limit)
            && (limit >= 0 ==> |r| == if limit < |stats| then limit else |stats|)
            && r == sorted[..|r|]
            && (forall i, j :: 0 <= i < j < |r| ==> r[i].games >= r[j].games)
            && (forall i :: 0 <= i < |r| ==> r[i] in stats)
  {
    var n := Seqs.SliceIndex(|sorted|, limit);
    Seqs.SliceFromStart(sorted, limit);
    var r := sorted[..n];
    assert |sorted| == |multiset(sorted)| == |stats|;
    forall i, j | 0 <= i < j < |r|
      ensures r[i].games >= r[j].games
    {
      assert MostGamesFirst(sorted[i]) <= MostGamesFirst(sorted[j]);
    }
    forall i | 0 <= i < |r|
      ensures r[i] in stats
    {
      assert r[i] in multiset(sorted);
    }
  }

  /** The text shown when the list is empty: it tells an empty filter from a filter with none of the player's games. */
  function EmptyMessage(matches: seq<Match>, gameType: string): (msg: string)
    ensures msg == NoGamesMessage <==> forall i :: 0 <= i < |matches| ==> !Keep(gameType, matches[i])
  {
    var filtered := FilterMatches(matches, gameType);
    assert |filtered| > 0 ==> filtered[0] in matches;
    if |filtered| == 0 then NoGamesMessage else NoChampionMessage
  }

  /** The KDA shown per champion: the takedowns-to-deaths ratio as `toFixed(2)` shows it. */
  function ChampionKda(t: Totals): (r: real)
    ensures r >= 0.0
    ensures -0.005 <= r - Formatters.KdaRatio(t.kills, t.deaths, t.assists) <= 0.005
    ensures Rounding.IsWhole(r * 100.0)
  {
    Formatters.CalculateKda(t.kills, t.deaths, t.assists)
  }

  /** The win percentage shown per champion; every listed champion has at least one game. */
  function WinPercent(t: Totals): (r: int)
    requires t.games > 0 && t.wins <= t.games
    ensures 0 <= r <= 100
  {
    Rounding.Percent(t.wins, t.games)
  }

  // ---------------------------------------------------------------------------
  // Properties

  /** "Tous" keeps every match. */
  lemma AllGamesKeepsEverything(matches: seq<Match>)
    ensures FilterMatches(matches, AllGames) == matches
  {
    Seqs.FilterKeepsAll(matches, m => Keep(AllGames, m));
  }

  /** A label other than the three known ones keeps nothing. */
  lemma UnknownGameTypeKeepsNothing(matches: seq<Match>, gameType: string)
    requires gameType != AllGames && gameType != RankedGames && gameType != NormalGames
    ensures FilterMatches(matches, gameType) == []
  {
    Seqs.FilterKeepsNone(matches, m => Keep(gameType, m));
  }

  /**
   * No champion left out of the list was played more than any listed one:
   * the list is the `limit` most played champions.
   */
  lemma TopAreMostPlayed(matches: seq<Match>, puuid: string, gameType: string, limit: int, t: Totals)
    requires t in Stats(matches, puuid, gameType) && t !in Top(matches, puuid, gameType, limit)
    ensures forall i :: 0 <= i < |Top(matches, puuid, gameType, limit)| ==> Top(matches, puuid, gameType, limit)[i].games >= t.games
  {
    var stats := Stats(matches, puuid, gameType);
    var sorted := Sorting.SortBy(stats, MostGamesFirst);
    var r := Top(matches, puuid, gameType, limit);
    assert t in multiset(sorted);
    var j :| 0 <= j < |sorted| && sorted[j] == t;
    Seqs.SliceFromStart(sorted, limit);
    assert r == sorted[..Seqs.SliceIndex(|sorted|, limit)];
    assert |r| <= j;
    forall i | 0 <= i < |r|
      ensures r[i].games >= t.games
    {
      assert r[i] == sorted[i];
      assert MostGamesFirst(sorted[i]) <= MostGamesFirst(sorted[j]);
    }
  }

  /** With room for every champion, every champion played under the filter is listed. */
  lemma TopListsEveryone(matches: seq<Match>, puuid: string, gameType: string, limit: int, t: Totals)
    requires limit >= |Stats(matches, puuid, gameType)|
    requires t in Stats(matches, puuid, gameType)
    ensures t in Top(matches, puuid, gameType, limit)
  {
    var stats := Stats(matches, puuid, gameType);
    var sorted := Sorting.SortBy(stats, MostGamesFirst);
    assert Top(matches, puuid, gameType, limit) == Seqs.JsSlice(sorted, 0, limit);
    Seqs.TakeSlice(sorted, limit);
    assert sorted[..|sorted|] == sorted;
    assert t in multiset(sorted);
  }

  /** The rollup is empty exactly when none of the player's games survives the filter. */
  lemma StatsEmptyIff(matches: seq<Match>, puuid: string, gameType: string)
    ensures Stats(matches, puuid, gameType) == []
            <==> Seqs.Filter(FilterMatches(matches, gameType), m => HasPlayer(m, puuid)) == []
  {
    var rows := PlayerRows(FilterMatches(matches, gameType), puuid);
    PlayerRowsCount(FilterMatches(matches, gameType), puuid);
    RollupCountsEveryGame(rows);
  }

  /** Every listed champion was played at least once, and the win percentage shown lies between 0 and 100. */
  lemma TopEntriesDisplayable(matches: seq<Match>, puuid: string, gameType: string, limit: int)
    ensures forall i :: 0 <= i < |Top(matches, puuid, gameType, limit)| ==>
              Top(matches, puuid, gameType, limit)[i].games >= 1
              && 0 <= WinPercent(Top(matches, puuid, gameType, limit)[i]) <= 100
  {
    var stats := Stats(matches, puuid, gameType);
    var r := Top(matches, puuid, gameType, limit);
    RollupEntriesPlayed(PlayerRows(FilterMatches(matches, gameType), puuid));
    forall i | 0 <= i < |r|
      ensures r[i].games >= 1 && r[i].wins <= r[i].games
    {
      var j :| 0 <= j < |stats| && stats[j] == r[i];
    }
  }
}
