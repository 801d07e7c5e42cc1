/**
 * The profile container: the search form's checks before it asks the
 * cache-first service for a player, the filter it applies to the player's
 * matches, and the match summaries it hands to the filter panel.
 */
module SummonerContainer {
  import opened Opt
  import opened RiotTypes
  import Seqs
  import Text
  import Provider
  import RiotService
  import opened MatchFilter
  import AdvancedMatchFilter

  const MissingInputMessage: string := "Veuillez entrer un Game Name et un Tag (#EUW, #NA, etc.)"
  const NotFoundMessage: string := "Joueur introuvable"

  /** The displayed outcome of a search: a profile, or an error text. */
  datatype SearchState = SearchState(summoner: Option<Summoner>, error: string)

  /** A search's outcome with the service's effect on storage and its provider calls. */
  datatype SearchRun = SearchRun(state: SearchState, storage: RiotService.Storage, calls: seq<Provider.Call>)

  /**
   * `handleSearch`: an empty name or tag is refused before any request; the
   * tag loses one leading `#`; a missing player shows "Joueur introuvable".
   * The service catches its own failures and answers null, so no other error
   * text can arise.
   */
  function HandleSearch(gameName: string, tagLine: string, s: RiotService.Storage, p: Provider.Oracle, now: int): (r: SearchRun)
    ensures r.state.error == "" <==> r.state.summoner.Some?
    ensures gameName == "" || tagLine == "" ==>
              r.state == SearchState(None, MissingInputMessage) && r.storage == s && r.calls == []
    ensures gameName != "" && tagLine != "" ==>
              var data := RiotService.GetSummonerData(gameName, Text.StripLeadingHash(tagLine), s, p, now);
              r.state.summoner == data.value && r.storage == data.storage && r.calls == data.calls
    ensures r.state.summoner.None? ==> r.state.error == MissingInputMessage || r.state.error == NotFoundMessage
  {
    if gameName == "" || tagLine == "" then SearchRun(SearchState(None, MissingInputMessage), s, [])
    else
      var data := RiotService.GetSummonerData(gameName, Text.StripLeadingHash(tagLine), s, p, now);
      match data.value
      case None => SearchRun(SearchState(None, NotFoundMessage), data.storage, data.calls)
      case Some(summoner) => SearchRun(SearchState(Some(summoner), ""), data.storage, data.calls)
  }

  /** Typing the tag with or without its leading `#` makes the same search. */
  lemma HashPrefixIgnored(gameName: string, tag: string, s: RiotService.Storage, p: Provider.Oracle, now: int)
    requires tag != "" && !Text.StartsWith(tag, "#")
    ensures HandleSearch(gameName, "#" + tag, s, p, now) == HandleSearch(gameName, tag, s, p, now)
  {
    assert ("#" + tag)[1..] == tag;
  }

  /**
   * `handleRefresh`: with a profile shown, drop its cached view and fetch it
   * again; a fresh answer replaces the profile and a null one keeps it.
   * Nothing happens before a profile is loaded.
   */
  function HandleRefresh(shown: Option<Summoner>, s: RiotService.Storage, p: Provider.Oracle, now: int): (r: RiotService.Run<Option<Summoner>>)
    ensures shown.None? ==> r == RiotService.Run(None, s, [])
    ensures shown.Some? ==> r.value.Some?
    ensures shown.Some? ==>
              var cleared := RiotService.ClearSummonerCache(shown.value.name, shown.value.tag, s);
              var data := RiotService.GetSummonerData(shown.value.name, shown.value.tag, cleared, p, now);
              r.storage == data.storage && r.calls == data.calls
              && r.value == (if data.value.Some? then data.value else shown)
  {
    match shown
    case None => RiotService.Run(None, s, [])
    case Some(sm) =>
      var cleared := RiotService.ClearSummonerCache(sm.name, sm.tag, s);
      var data := RiotService.GetSummonerData(sm.name, sm.tag, cleared, p, now);
      match data.value
      case None => RiotService.Run(shown, data.storage, data.calls)
      case Some(renewed) => RiotService.Run(Some(renewed), data.storage, data.calls)
  }

  /** A refresh never answers from the cached view it was asked to renew: the service starts its pipeline over. */
  lemma RefreshBypassesViewCache(sm: Summoner, s: RiotService.Storage, p: Provider.Oracle, now: int)
    ensures var cleared := RiotService.ClearSummonerCache(sm.name, sm.tag, s);
            !RiotService.SummonerHit(cleared, sm.name, sm.tag, now)
            && HandleRefresh(Some(sm), s, p, now).calls == RiotService.GetSummonerData(sm.name, sm.tag, cleared, p, now).calls
  {
    RiotService.ClearThenMiss(sm.name, sm.tag, s, now);
  }

  /** Whether the player's row in `m` passes the filters. */
  predicate KeepMatch(f: FilterOptions, m: Match, puuid: string, now: int) {
    match Summarize(m, puuid)
    case None => false
    case Some(x) => Passes(f, x, now)
  }

  /** `filteredMatches`: the loaded player's matches whose own row passes the filters, in order; none before a player is loaded. */
  function FilteredMatches(summoner: Option<Summoner>, f: FilterOptions, now: int): (r: seq<Match>)
    ensures summoner.None? ==> r == []
    ensures summoner.Some? ==> |r| <= |summoner.value.matches|
    ensures summoner.Some? ==> forall k :: 0 <= k < |r| ==>
              r[k] in summoner.value.matches && HasPlayer(r[k], summoner.value.puuid)
              && Passes(f, Summarize(r[k], summoner.value.puuid).value, now)
    ensures summoner.Some? ==>
              forall k :: 0 <= k < |summoner.value.matches| && KeepMatch(f, summoner.value.matches[k], summoner.value.puuid, now) ==>
                summoner.value.matches[k] in r
  {
    match summoner
    case None => []
    case Some(sm) =>
      var r := Seqs.Filter(sm.matches, (m: Match) => KeepMatch(f, m, sm.puuid, now));
      assert forall k :: 0 <= k < |r| ==> KeepMatch(f, r[k], sm.puuid, now);
      r
  }

  /**
   * The list keeps the loaded order: the list for two runs of matches is the
   * list for the first followed by the list for the second.
   */
  lemma FilteredMatchesAppend(sm: Summoner, a: seq<Match>, b: seq<Match>, f: FilterOptions, now: int)
    ensures FilteredMatches(Some(sm.(matches := a + b)), f, now)
            == FilteredMatches(Some(sm.(matches := a)), f, now) + FilteredMatches(Some(sm.(matches := b)), f, now)
  {
    Seqs.FilterAppend(a, b, (m: Match) => KeepMatch(f, m, sm.puuid, now));
  }

  /** A single match is listed exactly when it is kept. */
  lemma FilteredMatchesSingle(sm: Summoner, m: Match, f: FilterOptions, now: int)
    ensures FilteredMatches(Some(sm.(matches := [m])), f, now) == if KeepMatch(f, m, sm.puuid, now) then [m] else []
  {
    assert [m][1..] == [];
  }

  /** With the initial filters the list is every match the player appears in, in order. */
  lemma NoFiltersKeepPlayerMatches(sm: Summoner, now: int)
    ensures FilteredMatches(Some(sm), NoFilters, now) == Seqs.Filter(sm.matches, (m: Match) => HasPlayer(m, sm.puuid))
  {
    forall k | 0 <= k < |sm.matches|
      ensures KeepMatch(NoFilters, sm.matches[k], sm.puuid, now) == HasPlayer(sm.matches[k], sm.puuid)
    {
      if HasPlayer(sm.matches[k], sm.puuid) {
        NoFiltersPassEverything(Summarize(sm.matches[k], sm.puuid).value, now);
      }
    }
    Seqs.FilterCongruent(sm.matches, (m: Match) => KeepMatch(NoFilters, m, sm.puuid, now), (m: Match) => HasPlayer(m, sm.puuid));
  }

  /** `filterData`: the summary of the player's row in every match with the player, in order. */
  function FilterData(matches: seq<Match>, puuid: string): (r: seq<MatchSummary>)
    ensures |r| <= |matches|
    ensures forall k :: 0 <= k < |r| ==> Some(r[k]) in MapSummaries(matches, puuid)
  {
    if |matches| == 0 then []
    else
      var rest := FilterData(matches[1..], puuid);
      assert forall k :: 1 <= k < |matches| ==> MapSummaries(matches, puuid)[k] == MapSummaries(matches[1..], puuid)[k - 1];
      assert forall x :: x in MapSummaries(matches[1..], puuid) ==> x in MapSummaries(matches, puuid);
      match Summarize(matches[0], puuid)
      case None => rest
      case Some(x) =>
        assert MapSummaries(matches, puuid)[0] == Some(x);
        [x] + rest
  }

  function MapSummaries(matches: seq<Match>, puuid: string): (r: seq<Option<MatchSummary>>)
    ensures |r| == |matches| && forall k :: 0 <= k < |r| ==> r[k] == Summarize(matches[k], puuid)
  {
    seq(|matches|, k requires 0 <= k < |matches| => Summarize(matches[k], puuid))
  }

  /** One summary per match the player appears in. */
  lemma {:induction false} FilterDataCount(matches: seq<Match>, puuid: string)
    ensures |FilterData(matches, puuid)| == |Seqs.Filter(matches, (m: Match) => HasPlayer(m, puuid))|
  {
    if |matches| > 0 {
      FilterDataCount(matches[1..], puuid);
    }
  }

  /** The count the filter panel shows is the length of the list the container shows. */
  lemma {:induction false} CountMatchesList(sm: Summoner, f: FilterOptions, now: int)
    ensures AdvancedMatchFilter.FilteredCount(FilterData(sm.matches, sm.puuid), f, now) == |FilteredMatches(Some(sm), f, now)|
  {
    ShownMatchesCount(sm.matches, sm.puuid, f, now);
  }

  lemma {:induction false} ShownMatchesCount(matches: seq<Match>, puuid: string, f: FilterOptions, now: int)
    ensures |AdvancedMatchFilter.Shown(FilterData(matches, puuid), f, now)|
            == |Seqs.Filter(matches, (m: Match) => KeepMatch(f, m, puuid, now))|
  {
    if |matches| > 0 {
      ShownMatchesCount(matches[1..], puuid, f, now);
      var rest := FilterData(matches[1..], puuid);
      match Summarize(matches[0], puuid)
      case None =>
      case Some(x) =>
        assert FilterData(matches, puuid) == [x] + rest;
        assert ([x] + rest)[1..] == rest;
    }
  }
}
