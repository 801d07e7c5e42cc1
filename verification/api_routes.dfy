/**
 * The uncached service (`riotService` next to `apiRequest`): the same pipeline
 * as the cache-first service — account, summoner, rank, match ids, match
 * details — with every step sent to the provider.
 */
module ApiRoutes {
  import opened Opt
  import opened RiotTypes
  import opened Provider
  import Seqs

  /** `searchSummoners`: the account, or null when `apiRequest` throws. */
  function SearchSummoners(gameName: string, tagLine: string, p: Oracle): (r: Outcome<Option<Account>>)
    ensures r.calls == [AccountCall(gameName, tagLine)]
    ensures r.value.Some? <==> p.account(gameName, tagLine).Response? && IsOk(p.account(gameName, tagLine).status)
                               && p.account(gameName, tagLine).body.Some?
    ensures r.value.Some? ==> r.value == p.account(gameName, tagLine).body
  {
    Outcome(ApiRequest(p.account(gameName, tagLine)).OrNull(), [AccountCall(gameName, tagLine)])
  }

  /** `getSummonerRank`: the first league entry; null for an empty list or a failed request. */
  function GetSummonerRank(summonerId: string, p: Oracle): (r: Outcome<Option<LeagueEntry>>)
    ensures r.calls == [LeagueCall(summonerId)]
    ensures r.value.Some? <==> ApiRequest(p.league(summonerId)).Ok? && |ApiRequest(p.league(summonerId)).value| > 0
    ensures r.value.Some? ==> r.value.value == p.league(summonerId).body.value[0]
  {
    var v := match ApiRequest(p.league(summonerId))
             case Ok(list) => FirstEntry(list)
             case Failed(_) => None;
    Outcome(v, [LeagueCall(summonerId)])
  }

  /** Step 5: every id's details, in id order; a failed request becomes null. */
  function MatchDetails(ids: seq<string>, p: Oracle): (r: seq<Option<Match>>)
    ensures |r| == |ids|
    ensures forall i :: 0 <= i < |ids| ==> (r[i].Some? <==> ApiRequest(p.matchDetail(ids[i])).Ok?)
    ensures forall i :: 0 <= i < |ids| && ApiRequest(p.matchDetail(ids[i])).Ok? ==> r[i] == Some(p.matchDetail(ids[i]).body.value)
  {
    seq(|ids|, i requires 0 <= i < |ids| => ApiRequest(p.matchDetail(ids[i])).OrNull())
  }

  function MatchCalls(ids: seq<string>): (r: seq<Call>)
    ensures |r| == |ids|
    ensures forall i :: 0 <= i < |ids| ==> r[i] == MatchCall(ids[i])
  {
    seq(|ids|, i requires 0 <= i < |ids| => MatchCall(ids[i]))
  }

  /**
   * `getSummonerData`: null when the account, the summoner record or the id
   * list cannot be obtained; otherwise the view with the rank (or null) and
   * the matches whose details arrived, in id order.
   */
  function GetSummonerData(gameName: string, tagLine: string, p: Oracle): (r: Outcome<Option<Summoner>>)
    ensures |r.calls| >= 1 && r.calls[0] == AccountCall(gameName, tagLine)
    ensures r.value.Some? <==>
              ApiRequest(p.account(gameName, tagLine)).Ok?
              && ApiRequest(p.summoner(p.account(gameName, tagLine).body.value.puuid)).Ok?
              && ApiRequest(p.matchIds(p.account(gameName, tagLine).body.value.puuid)).Ok?
    ensures r.value.Some? ==>
              var a := p.account(gameName, tagLine).body.value;
              var record := p.summoner(a.puuid).body.value;
              var ids := p.matchIds(a.puuid).body.value;
              r.value.value.name == a.gameName && r.value.value.tag == a.tagLine && r.value.value.puuid == a.puuid
              && r.value.value.profileIconId == record.profileIconId
              && r.value.value.summonerLevel == record.summonerLevel
              && r.value.value.rank == RankOf(GetSummonerRank(record.id, p).value)
              && r.value.value.matches == Seqs.FilterSome(MatchDetails(ids, p))
              && r.calls == [AccountCall(gameName, tagLine), SummonerCall(a.puuid), LeagueCall(record.id),
                             MatchIdsCall(a.puuid, MatchIdStart, MatchIdCount)] + MatchCalls(ids)
  {
    var acc := SearchSummoners(gameName, tagLine, p);
    if acc.value.None? then Outcome(None, acc.calls)
    else
      var a := acc.value.value;
      var calls1 := acc.calls + [SummonerCall(a.puuid)];
      match ApiRequest(p.summoner(a.puuid))
      case Failed(_) => Outcome(None, calls1)
      case Ok(record) =>
        var view := FetchView(a, record, p);
        Outcome(view.value, calls1 + view.calls)
  }

  /** Steps 3 to 5 once the account and the summoner record are known. */
  function FetchView(a: Account, record: SummonerRecord, p: Oracle): (r: Outcome<Option<Summoner>>)
    ensures r.value.Some? <==> ApiRequest(p.matchIds(a.puuid)).Ok?
    ensures r.value.Some? ==>
              var ids := p.matchIds(a.puuid).body.value;
              r.value.value.name == a.gameName && r.value.value.tag == a.tagLine && r.value.value.puuid == a.puuid
              && r.value.value.profileIconId == record.profileIconId
              && r.value.value.summonerLevel == record.summonerLevel
              && r.value.value.rank == RankOf(GetSummonerRank(record.id, p).value)
              && r.value.value.matches == Seqs.FilterSome(MatchDetails(ids, p))
              && r.calls == [LeagueCall(record.id), MatchIdsCall(a.puuid, MatchIdStart, MatchIdCount)] + MatchCalls(ids)
  {
    var rank := GetSummonerRank(record.id, p);
    var calls := rank.calls + [MatchIdsCall(a.puuid, MatchIdStart, MatchIdCount)];
    match ApiRequest(p.matchIds(a.puuid))
    case Failed(_) => Outcome(None, calls)
    case Ok(ids) =>
      Outcome(Some(BuildSummoner(a, record, rank.value, Seqs.FilterSome(MatchDetails(ids, p)))), calls + MatchCalls(ids))
  }
}
