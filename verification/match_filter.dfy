/**
 * The advanced match filter's options and the five-part test a match must
 * pass: queue, champion, result, a fourteen-day window before `now`, and
 * role. The profile container applies the test to the player's row of each
 * match; the filter panel applies it to match summaries to count them. Both
 * write the same checks, so the model states them once over a summary.
 */
module MatchFilter {
  import opened Opt
  import opened RiotTypes

  datatype ResultFilter = AnyResult | WinsOnly | LossesOnly
  datatype TimeRange = AnyTime | RecentGames | OlderGames

  /** `role` is `null` or a position; an empty position is falsy and filters nothing. */
  datatype FilterOptions = FilterOptions(
    queueTypes: seq<int>,
    champions: seq<string>,
    result: ResultFilter,
    timeRange: TimeRange,
    role: Option<string>)

  /** The fields of the player's row the filter reads. */
  datatype MatchSummary = MatchSummary(queueId: int, championName: string, win: bool, gameCreation: int, teamPosition: string)

  /** The initial (and reset) filter state. */
  const NoFilters: FilterOptions := FilterOptions([], [], AnyResult, AnyTime, None)

  /** Fourteen days in milliseconds. */
  const RecentWindow: int := 14 * 24 * 60 * 60 * 1000

  /** The filter's test, with the checks in the order the program makes them. */
  predicate Passes(f: FilterOptions, s: MatchSummary, now: int) {
    if |f.queueTypes| > 0 && s.queueId !in f.queueTypes then false
    else if |f.champions| > 0 && s.championName !in f.champions then false
    else if f.result == WinsOnly && !s.win then false
    else if f.result == LossesOnly && s.win then false
    else if f.timeRange == RecentGames && s.gameCreation < now - RecentWindow then false
    else if f.timeRange == OlderGames && s.gameCreation >= now - RecentWindow then false
    else if f.role.Some? && f.role.value != "" && s.teamPosition != f.role.value then false
    else true
  }

  /** The summary of the player's row in `m`, when the player took part. */
  function Summarize(m: Match, puuid: string): (r: Option<MatchSummary>)
    ensures r.Some? <==> HasPlayer(m, puuid)
    ensures r.Some? ==> var p := FindPlayer(m, puuid).value;
                        r.value == MatchSummary(m.queueId, p.championName, p.win, m.gameCreation, p.teamPosition)
  {
    match FindPlayer(m, puuid)
    case None => None
    case Some(p) => Some(MatchSummary(m.queueId, p.championName, p.win, m.gameCreation, p.teamPosition))
  }

  // ---------------------------------------------------------------------------
  // Properties

  /** The initial filters let every match through. */
  lemma NoFiltersPassEverything(s: MatchSummary, now: int)
    ensures Passes(NoFilters, s, now)
  {
  }

  /** Each active part of the filter holds of every match that passes; an empty list constrains nothing. */
  lemma PassingMatchesMeetEachFilter(f: FilterOptions, s: MatchSummary, now: int)
    requires Passes(f, s, now)
    ensures |f.queueTypes| > 0 ==> s.queueId in f.queueTypes
    ensures |f.champions| > 0 ==> s.championName in f.champions
    ensures f.result == WinsOnly ==> s.win
    ensures f.result == LossesOnly ==> !s.win
    ensures f.timeRange == RecentGames ==> s.gameCreation >= now - RecentWindow
    ensures f.timeRange == OlderGames ==> s.gameCreation < now - RecentWindow
    ensures f.role.Some? && f.role.value != "" ==> s.teamPosition == f.role.value
  {
  }

  /** A match meeting every active part of the filter passes it. */
  lemma MeetingEachFilterPasses(f: FilterOptions, s: MatchSummary, now: int)
    requires |f.queueTypes| > 0 ==> s.queueId in f.queueTypes
    requires |f.champions| > 0 ==> s.championName in f.champions
    requires f.result == WinsOnly ==> s.win
    requires f.result == LossesOnly ==> !s.win
    requires f.timeRange == RecentGames ==> s.gameCreation >= now - RecentWindow
    requires f.timeRange == OlderGames ==> s.gameCreation < now - RecentWindow
    requires f.role.Some? && f.role.value != "" ==> s.teamPosition == f.role.value
    ensures Passes(f, s, now)
  {
  }

  /** With the other filters at their defaults, every match passes exactly one of "recent" and "older"; a game exactly fourteen days old is recent. */
  lemma TimeRangesSplit(s: MatchSummary, now: int)
    ensures Passes(NoFilters.(timeRange := RecentGames), s, now) != Passes(NoFilters.(timeRange := OlderGames), s, now)
    ensures Passes(NoFilters.(timeRange := RecentGames), s, now) <==> s.gameCreation >= now - RecentWindow
  {
  }

  /** With the other filters at their defaults, every match passes exactly one of "win" and "loss". */
  lemma ResultsSplit(s: MatchSummary, now: int)
    ensures Passes(NoFilters.(result := WinsOnly), s, now) <==> s.win
    ensures Passes(NoFilters.(result := LossesOnly), s, now) <==> !s.win
  {
  }

  /** An empty role is falsy: it filters exactly as no role. */
  lemma EmptyRoleFiltersNothing(f: FilterOptions, s: MatchSummary, now: int)
    ensures Passes(f.(role := Some("")), s, now) == Passes(f.(role := None), s, now)
  {
  }
}
