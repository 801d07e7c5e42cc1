/**
 * The win-rate-per-champion chart: every match is rolled up per champion,
 * each champion gets a whole win percentage, champions with fewer than
 * `minGames` games are dropped, the rest are sorted by win percentage (highest
 * first) and at most ten are drawn. An overall win rate is shown beside them.
 */
module ChampionWinRate {
  import opened Opt
  import opened RiotTypes
  import Seqs
  import Sorting
  import Rounding
  import opened ChampionStats

  const DefaultMinGames: int := 3
  /** The chart draws at most this many bars. */
  const MaxBars: int := 10

  datatype WinRateEntry = WinRateEntry(name: string, games: nat, wins: nat, winRate: int)

  /** An entry of the chart for one champion's totals. */
  function WithRate(t: Totals): (e: WinRateEntry)
    requires t.games > 0 && t.wins <= t.games
    ensures e.name == t.championName && e.games == t.games && e.wins == t.wins
    ensures 0 <= e.winRate <= 100
  {
    WinRateEntry(t.championName, t.games, t.wins, Rounding.Percent(t.wins, t.games))
  }

  /** Every champion the player played, with its win percentage, in order of first appearance. */
  function Rated(matches: seq<Match>, puuid: string): (es: seq<WinRateEntry>)
    ensures |es| == |Rollup(PlayerRows(matches, puuid))|
    ensures forall i :: 0 <= i < |es| ==> es[i] == WithRate(Rollup(PlayerRows(matches, puuid))[i])
  {
    var stats := Rollup(PlayerRows(matches, puuid));
    RollupEntriesPlayed(PlayerRows(matches, puuid));
    seq(|stats|, i requires 0 <= i < |stats| => WithRate(stats[i]))
  }

  function HighestRateFirst(e: WinRateEntry): real {
    -(e.winRate as real)
  }

  /**
   * The champions with at least `minGames` games, highest win percentage first:
   * a rearrangement of those entries, one per champion.
   */
  function ChampionRates(matches: seq<Match>, puuid: string, minGames: int): (r: seq<WinRateEntry>)
    ensures forall i :: 0 <= i < |r| ==> r[i].games >= minGames && r[i] in Rated(matches, puuid)
    ensures forall i :: 0 <= i < |Rated(matches, puuid)| && Rated(matches, puuid)[i].games >= minGames
              ==> Rated(matches, puuid)[i] in r
    ensures forall i, j :: 0 <= i < j < |r| ==> r[i].winRate >= r[j].winRate
    ensures multiset(r) == multiset(Seqs.Filter(Rated(matches, puuid), (e: WinRateEntry) => e.games >= minGames))
    ensures forall i, j :: 0 <= i < j < |r| ==> r[i].name != r[j].name
  {
    var rated := Rated(matches, puuid);
    FilterSortFacts(rated, minGames);
    RatedNamesDistinct(matches, puuid);
    SortRatesDistinct(rated, minGames);
    SortRatesPermutes(rated, minGames);
    SortRates(rated, minGames)
  }

  /** Each champion has one entry in `Rated`, and entries of the same champion are equal. */
  lemma RatedNamesDistinct(matches: seq<Match>, puuid: string)
    ensures forall i, j :: 0 <= i < j < |Rated(matches, puuid)| ==> Rated(matches, puuid)[i].name != Rated(matches, puuid)[j].name
    ensures Seqs.NoDuplicates(Rated(matches, puuid))
  {
  }

  function Kept(rated: seq<WinRateEntry>, minGames: int): (kept: seq<WinRateEntry>)
    ensures forall e :: e in kept <==> e in rated && e.games >= minGames
  {
    var kept := Seqs.Filter(rated, (e: WinRateEntry) => e.games >= minGames);
    forall e | e in kept
      ensures e in rated && e.games >= minGames
    {
      var k :| 0 <= k < |kept| && kept[k] == e;
    }
    kept
  }

  function SortRates(rated: seq<WinRateEntry>, minGames: int): seq<WinRateEntry> {
    Sorting.SortBy(Kept(rated, minGames), HighestRateFirst)
  }

  lemma FilterSortFacts(rated: seq<WinRateEntry>, minGames: int)
    ensures var r := SortRates(rated, minGames);
            && (forall i :: 0 <= i < |r| ==> r[i].games >= minGames && r[i] in rated)
            && (forall i :: 0 <= i < |rated| && rated[i].games >= minGames ==> rated[i] in r)
            && (forall i, j :: 0 <= i < j < |r| ==> r[i].winRate >= r[j].winRate)
  {
    var kept := Kept(rated, minGames);
    var r := SortRates(rated, minGames);
    Sorting.PermutationMembers(kept, r);
    assert forall i, j :: 0 <= i < j < |r| ==> HighestRateFirst(r[i]) <= HighestRateFirst(r[j]);
  }

  lemma SortRatesPermutes(rated: seq<WinRateEntry>, minGames: int)
    ensures multiset(SortRates(rated, minGames)) == multiset(Seqs.Filter(rated, (e: WinRateEntry) => e.games >= minGames))
  {
  }

  /** Sorting the kept entries of a list with one entry per champion keeps one entry per champion. */
  lemma SortRatesDistinct(rated: seq<WinRateEntry>, minGames: int)
    requires Seqs.NoDuplicates(rated)
    requires forall i, j :: 0 <= i < j < |rated| ==> rated[i].name != rated[j].name
    ensures var r := SortRates(rated, minGames);
            forall i, j :: 0 <= i < j < |r| ==> r[i].name != r[j].name
  {
    var kept := Kept(rated, minGames);
    var r := SortRates(rated, minGames);
    Sorting.PermutationMembers(kept, r);
    Seqs.FilterNoDuplicates(rated, (e: WinRateEntry) => e.games >= minGames);
    Seqs.PermutationNoDuplicates(kept, r);
    forall i, j | 0 <= i < j < |r|
      ensures r[i].name != r[j].name
    {
      var a :| 0 <= a < |rated| && rated[a] == r[i];
      var b :| 0 <= b < |rated| && rated[b] == r[j];
      assert a != b;
    }
  }

  /** The bars drawn: the first ten of the sorted champions. */
  function ChartData(rates: seq<WinRateEntry>): (r: seq<WinRateEntry>)
    ensures |r| == if |rates| < MaxBars then |rates| else MaxBars
    ensures forall i :: 0 <= i < |r| ==> r[i] == rates[i]
  {
    Seqs.SliceFromStart(rates, MaxBars);
    Seqs.JsSlice(rates, 0, MaxBars)
  }

  function SumWins(es: seq<WinRateEntry>): nat {
    if |es| == 0 then 0 else es[0].wins + SumWins(es[1..])
  }

  function SumEntryGames(es: seq<WinRateEntry>): nat {
    if |es| == 0 then 0 else es[0].games + SumEntryGames(es[1..])
  }

  /** Entries as the chart builds them: at least one game each, never more wins than games. */
  ghost predicate WellFormed(es: seq<WinRateEntry>) {
    forall i :: 0 <= i < |es| ==> es[i].games >= 1 && es[i].wins <= es[i].games
  }

  /**
   * The overall percentage over the listed champions, pooled by games. It is
   * only displayed next to a non-empty chart; with no champion listed there is
   * no figure.
   */
  function OverallWinRate(es: seq<WinRateEntry>): (r: Option<int>)
    requires WellFormed(es)
    ensures r.None? <==> |es| == 0
    ensures r.Some? ==> 0 <= r.value <= 100
  {
    if |es| == 0 then None
    else
      SumsBounded(es);
      Some(Rounding.Percent(SumWins(es), SumEntryGames(es)))
  }

  // ---------------------------------------------------------------------------
  // Properties

  lemma {:induction false} SumsBounded(es: seq<WinRateEntry>)
    requires WellFormed(es)
    ensures SumWins(es) <= SumEntryGames(es)
    ensures |es| <= SumEntryGames(es)
  {
    if |es| > 0 {
      SumsBounded(es[1..]);
    }
  }

  /** Every champion of the chart's data is drawn with a win percentage between 0 and 100 and at least `minGames` games. */
  lemma RatesWellFormed(matches: seq<Match>, puuid: string, minGames: int)
    ensures WellFormed(ChampionRates(matches, puuid, minGames))
    ensures forall i :: 0 <= i < |ChampionRates(matches, puuid, minGames)| ==>
              0 <= ChampionRates(matches, puuid, minGames)[i].winRate <= 100
  {
    var rated := Rated(matches, puuid);
    var r := ChampionRates(matches, puuid, minGames);
    RollupEntriesPlayed(PlayerRows(matches, puuid));
    forall i | 0 <= i < |r|
      ensures r[i].games >= 1 && r[i].wins <= r[i].games && 0 <= r[i].winRate <= 100
    {
      var j :| 0 <= j < |rated| && rated[j] == r[i];
    }
  }

  /** A champion reaches the chart data exactly when it was played at least `minGames` times. */
  lemma ChampionListedIff(matches: seq<Match>, puuid: string, minGames: int, name: string)
    ensures (exists i :: 0 <= i < |ChampionRates(matches, puuid, minGames)| && ChampionRates(matches, puuid, minGames)[i].name == name)
            <==> HasRow(PlayerRows(matches, puuid), name) && TotalsFor(PlayerRows(matches, puuid), name).games >= minGames
  {
    var r := ChampionRates(matches, puuid, minGames);
    if exists i :: 0 <= i < |r| && r[i].name == name {
      var i :| 0 <= i < |r| && r[i].name == name;
      ListedHasGames(matches, puuid, minGames, r[i]);
    }
    if HasRow(PlayerRows(matches, puuid), name) && TotalsFor(PlayerRows(matches, puuid), name).games >= minGames {
      EnoughGamesListed(matches, puuid, minGames, name);
    }
  }

  lemma ListedHasGames(matches: seq<Match>, puuid: string, minGames: int, e: WinRateEntry)
    requires e in ChampionRates(matches, puuid, minGames)
    ensures HasRow(PlayerRows(matches, puuid), e.name) && TotalsFor(PlayerRows(matches, puuid), e.name).games >= minGames
  {
    var rows := PlayerRows(matches, puuid);
    var stats := Rollup(rows);
    var rated := Rated(matches, puuid);
    var j :| 0 <= j < |rated| && rated[j] == e;
    assert stats[j].championName == e.name;
    assert Named(stats, e.name);
  }

  lemma EnoughGamesListed(matches: seq<Match>, puuid: string, minGames: int, name: string)
    requires HasRow(PlayerRows(matches, puuid), name) && TotalsFor(PlayerRows(matches, puuid), name).games >= minGames
    ensures exists i :: 0 <= i < |ChampionRates(matches, puuid, minGames)| && ChampionRates(matches, puuid, minGames)[i].name == name
  {
    var rows := PlayerRows(matches, puuid);
    var stats := Rollup(rows);
    var rated := Rated(matches, puuid);
    var r := ChampionRates(matches, puuid, minGames);
    assert Named(stats, name);
    var j :| 0 <= j < |stats| && stats[j].championName == name;
    assert rated[j].name == name && rated[j].games >= minGames;
    assert rated[j] in r;
    var i :| 0 <= i < |r| && r[i] == rated[j];
  }

  /** The chart is empty, and the "not enough data" message shown, exactly when no champion has `minGames` games. */
  lemma ChartEmptyIff(matches: seq<Match>, puuid: string, minGames: int)
    ensures ChartData(ChampionRates(matches, puuid, minGames)) == []
            <==> forall i :: 0 <= i < |Rated(matches, puuid)| ==> Rated(matches, puuid)[i].games < minGames
  {
    var r := ChampionRates(matches, puuid, minGames);
    if |r| > 0 {
      assert r[0] in Rated(matches, puuid);
    }
  }

  // ---------------------------------------------------------------------------
  // The overall figure, counted game by game

  /** The player's games on one of the given champions. */
  function GamesOn(rows: seq<Participant>, names: set<string>): nat
    decreases |rows|
  {
    if |rows| == 0 then 0
    else GamesOn(rows[..|rows| - 1], names) + (if rows[|rows| - 1].championName in names then 1 else 0)
  }

  /** The player's wins on one of the given champions. */
  function WinsOn(rows: seq<Participant>, names: set<string>): nat
    decreases |rows|
  {
    if |rows| == 0 then 0
    else WinsOn(rows[..|rows| - 1], names) + (if rows[|rows| - 1].championName in names && rows[|rows| - 1].win then 1 else 0)
  }

  /** The champions with at least `minGames` of the rows. */
  function Qualifying(rows: seq<Participant>, minGames: int): set<string> {
    set k | 0 <= k < |rows| && TotalsFor(rows, rows[k].championName).games >= minGames :: rows[k].championName
  }

  function NamesOf(es: seq<WinRateEntry>): set<string> {
    set i | 0 <= i < |es| :: es[i].name
  }

  lemma {:induction false} NoNameCounted(rows: seq<Participant>)
    ensures GamesOn(rows, {}) == 0 && WinsOn(rows, {}) == 0
    decreases |rows|
  {
    if |rows| > 0 {
      NoNameCounted(rows[..|rows| - 1]);
    }
  }

  /** Counting one more champion adds exactly that champion's games and wins. */
  lemma {:induction false} AddNameCounted(rows: seq<Participant>, names: set<string>, name: string)
    requires name !in names
    ensures GamesOn(rows, names + {name}) == GamesOn(rows, names) + TotalsFor(rows, name).games
    ensures WinsOn(rows, names + {name}) == WinsOn(rows, names) + TotalsFor(rows, name).wins
    decreases |rows|
  {
    if |rows| > 0 {
      AddNameCounted(rows[..|rows| - 1], names, name);
    }
  }

  /** Entries holding one champion each, with that champion's totals, add up to the games and wins on those champions. */
  lemma {:induction false} PooledSums(es: seq<WinRateEntry>, rows: seq<Participant>)
    requires forall i, j :: 0 <= i < j < |es| ==> es[i].name != es[j].name
    requires forall i :: 0 <= i < |es| ==>
               es[i].games == TotalsFor(rows, es[i].name).games && es[i].wins == TotalsFor(rows, es[i].name).wins
    ensures SumEntryGames(es) == GamesOn(rows, NamesOf(es))
    ensures SumWins(es) == WinsOn(rows, NamesOf(es))
  {
    if |es| == 0 {
      assert NamesOf(es) == {};
      NoNameCounted(rows);
    } else {
      var tail := es[1..];
      PooledSums(tail, rows);
      assert NamesOf(es) == NamesOf(tail) + {es[0].name} by {
        forall n | n in NamesOf(es)
          ensures n in NamesOf(tail) + {es[0].name}
        {
          var i :| 0 <= i < |es| && es[i].name == n;
          if i > 0 {
            assert tail[i - 1].name == n;
          }
        }
        forall n | n in NamesOf(tail)
          ensures n in NamesOf(es)
        {
          var i :| 0 <= i < |tail| && tail[i].name == n;
          assert es[i + 1].name == n;
        }
      }
      assert es[0].name !in NamesOf(tail) by {
        forall i | 0 <= i < |tail|
          ensures tail[i].name != es[0].name
        {
          assert tail[i] == es[i + 1];
        }
      }
      AddNameCounted(rows, NamesOf(tail), es[0].name);
    }
  }

  /** The champions listed are exactly those with at least `minGames` games. */
  lemma ListedAreQualifying(matches: seq<Match>, puuid: string, minGames: int)
    ensures NamesOf(ChampionRates(matches, puuid, minGames)) == Qualifying(PlayerRows(matches, puuid), minGames)
  {
    var rows := PlayerRows(matches, puuid);
    var r := ChampionRates(matches, puuid, minGames);
    var q := Qualifying(rows, minGames);
    forall n | n in NamesOf(r)
      ensures n in q
    {
      var i :| 0 <= i < |r| && r[i].name == n;
      ListedHasGames(matches, puuid, minGames, r[i]);
      var k :| 0 <= k < |rows| && rows[k].championName == n;
    }
    forall n | n in q
      ensures n in NamesOf(r)
    {
      var k :| 0 <= k < |rows| && TotalsFor(rows, rows[k].championName).games >= minGames && rows[k].championName == n;
      assert HasRow(rows, n);
      EnoughGamesListed(matches, puuid, minGames, n);
      var i :| 0 <= i < |r| && r[i].name == n;
    }
  }

  /** Every listed entry carries its champion's games and wins. */
  lemma ListedHoldTotals(matches: seq<Match>, puuid: string, minGames: int)
    ensures var r := ChampionRates(matches, puuid, minGames);
            forall i :: 0 <= i < |r| ==>
              r[i].games == TotalsFor(PlayerRows(matches, puuid), r[i].name).games
              && r[i].wins == TotalsFor(PlayerRows(matches, puuid), r[i].name).wins
  {
    var rated := Rated(matches, puuid);
    var r := ChampionRates(matches, puuid, minGames);
    forall i | 0 <= i < |r|
      ensures r[i].games == TotalsFor(PlayerRows(matches, puuid), r[i].name).games
              && r[i].wins == TotalsFor(PlayerRows(matches, puuid), r[i].name).wins
    {
      var j :| 0 <= j < |rated| && rated[j] == r[i];
    }
  }

  /**
   * The overall win rate is the player's wins over the player's games, counted
   * over every game played on a champion with at least `minGames` games, and
   * there is no figure exactly when there is no such game.
   */
  lemma OverallIsPooled(matches: seq<Match>, puuid: string, minGames: int)
    ensures WellFormed(ChampionRates(matches, puuid, minGames))
    ensures var rows := PlayerRows(matches, puuid);
            var q := Qualifying(rows, minGames);
            var r := ChampionRates(matches, puuid, minGames);
            && SumEntryGames(r) == GamesOn(rows, q)
            && SumWins(r) == WinsOn(rows, q)
            && OverallWinRate(r) == if GamesOn(rows, q) == 0 then None else Some(Rounding.Percent(WinsOn(rows, q), GamesOn(rows, q)))
  {
    var r := ChampionRates(matches, puuid, minGames);
    RatesWellFormed(matches, puuid, minGames);
    ListedHoldTotals(matches, puuid, minGames);
    ListedAreQualifying(matches, puuid, minGames);
    PooledSums(r, PlayerRows(matches, puuid));
    SumsBounded(r);
  }
}
