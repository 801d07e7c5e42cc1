/**
 * The first-generation client (`riotApi`): the same pipeline written directly
 * against `fetch`. It differs from `apiRequest` in one place: a match-detail
 * reply that is not OK becomes null, but a transport failure or an unparsable
 * body rejects the whole `Promise.all` and so the whole lookup.
 */
module RiotApi {
  import opened Opt
  import opened RiotTypes
  import opened Provider
  import Seqs

  /** `searchSummoners`: null when the reply is missing, not OK, or does not parse. */
  function SearchSummoners(gameName: string, tagLine: string, p: Oracle): (r: Option<Account>)
    ensures r.Some? <==> !Throws(p.account(gameName, tagLine)) && IsOk(p.account(gameName, tagLine).status)
    ensures r.Some? ==> r.value == p.account(gameName, tagLine).body.value
  {
    match p.account(gameName, tagLine)
    case NetworkFailure => None
    case Response(status, body) =>
      if !IsOk(status) then None
      else match body
        case None => None
        case Some(a) => Some(Account(a.gameName, a.tagLine, a.puuid))
  }

  /** `getSummonerRank`: the first entry of an OK reply, else null. */
  function GetSummonerRank(summonerId: string, p: Oracle): (r: Option<LeagueEntry>)
    ensures r.Some? ==> p.league(summonerId).Response? && IsOk(p.league(summonerId).status)
                        && p.league(summonerId).body.Some? && |p.league(summonerId).body.value| > 0
                        && r.value == p.league(summonerId).body.value[0]
    ensures r.None? ==> Throws(p.league(summonerId)) || !IsOk(p.league(summonerId).status)
                        || |p.league(summonerId).body.value| == 0
  {
    match p.league(summonerId)
    case NetworkFailure => None
    case Response(status, body) =>
      if !IsOk(status) then None
      else match body
        case None => None
        case Some(list) => FirstEntry(list)
  }

  /** What one match-detail `fetch` contributes to `Promise.all`. */
  datatype DetailOutcome = Kept(detail: Match) | Dropped | Thrown

  function DetailOf(reply: Reply<Match>): (r: DetailOutcome)
    ensures r.Thrown? <==> Throws(reply)
    ensures r.Dropped? <==> reply.Response? && !IsOk(reply.status)
  {
    match reply
    case NetworkFailure => Thrown
    case Response(status, body) =>
      if !IsOk(status) then Dropped
      else match body
        case None => Thrown
        case Some(m) => Kept(m)
  }

  /** The outcome of each match-detail fetch, in id order. */
  function DetailOutcomes(ids: seq<string>, p: Oracle): (r: seq<DetailOutcome>)
    ensures |r| == |ids| && forall i :: 0 <= i < |ids| ==> r[i] == DetailOf(p.matchDetail(ids[i]))
  {
    seq(|ids|, i requires 0 <= i < |ids| => DetailOf(p.matchDetail(ids[i])))
  }

  /** `Promise.all` over the detail fetches: the list with nulls, or a rejection when any fetch throws. */
  function CollectDetails(outcomes: seq<DetailOutcome>): (r: Option<seq<Option<Match>>>)
    ensures r.None? <==> exists i :: 0 <= i < |outcomes| && outcomes[i].Thrown?
    ensures r.Some? ==> |r.value| == |outcomes|
    ensures r.Some? ==> forall i :: 0 <= i < |outcomes| ==>
              (r.value[i].Some? <==> outcomes[i].Kept?) && (outcomes[i].Kept? ==> r.value[i].value == outcomes[i].detail)
  {
    if |outcomes| == 0 then Some([])
    else
      var rest := CollectDetails(outcomes[1..]);
      assert forall i :: 1 <= i < |outcomes| ==> outcomes[i] == outcomes[1..][i - 1];
      match outcomes[0]
      case Thrown => None
      case Dropped => if rest.None? then None else Some([None] + rest.value)
      case Kept(m) => if rest.None? then None else Some([Some(m)] + rest.value)
  }

  /** Steps 3 to 5 once the account and the summoner record are known; any throwing step yields null. */
  function FetchView(a: Account, record: SummonerRecord, p: Oracle): (r: Outcome<Option<Summoner>>)
    ensures |r.calls| >= 2 && r.calls[..2] == [LeagueCall(record.id), MatchIdsCall(a.puuid, MatchIdStart, MatchIdCount)]
    ensures r.value.Some? <==>
              ApiRequest(p.matchIds(a.puuid)).Ok?
              && forall i :: 0 <= i < |ApiRequest(p.matchIds(a.puuid)).value| ==>
                   !Throws(p.matchDetail(ApiRequest(p.matchIds(a.puuid)).value[i]))
    ensures r.value.Some? ==>
              var details := CollectDetails(DetailOutcomes(ApiRequest(p.matchIds(a.puuid)).value, p));
              details.Some? && r.value.value.matches == Seqs.FilterSome(details.value)
  {
    var rank := GetSummonerRank(record.id, p);
    var calls := [LeagueCall(record.id), MatchIdsCall(a.puuid, MatchIdStart, MatchIdCount)];
    match p.matchIds(a.puuid)
    case NetworkFailure => Outcome(None, calls)
    case Response(status, body) =>
      if !IsOk(status) || body.None? then Outcome(None, calls)
      else
        var ids := body.value;
        var allCalls := calls + seq(|ids|, i requires 0 <= i < |ids| => MatchCall(ids[i]));
        var details := CollectDetails(DetailOutcomes(ids, p));
        if details.None? then Outcome(None, allCalls)
        else Outcome(Some(BuildSummoner(a, record, rank, Seqs.FilterSome(details.value))), allCalls)
  }

  /** `getSummonerData`: null when any step throws, including any single match-detail fetch. */
  function GetSummonerData(gameName: string, tagLine: string, p: Oracle): (r: Outcome<Option<Summoner>>)
    ensures |r.calls| >= 1 && r.calls[0] == AccountCall(gameName, tagLine)
    ensures r.value.Some? <==>
              SearchSummoners(gameName, tagLine, p).Some?
              && ApiRequest(p.summoner(SearchSummoners(gameName, tagLine, p).value.puuid)).Ok?
              && FetchView(SearchSummoners(gameName, tagLine, p).value,
                           ApiRequest(p.summoner(SearchSummoners(gameName, tagLine, p).value.puuid)).value, p).value.Some?
  {
    var acc := SearchSummoners(gameName, tagLine, p);
    if acc.None? then Outcome(None, [AccountCall(gameName, tagLine)])
    else
      var a := acc.value;
      var calls1 := [AccountCall(gameName, tagLine), SummonerCall(a.puuid)];
      match p.summoner(a.puuid)
      case NetworkFailure => Outcome(None, calls1)
      case Response(status, body) =>
        if !IsOk(status) || body.None? then Outcome(None, calls1)
        else
          var view := FetchView(a, body.value, p);
          Outcome(view.value, calls1 + view.calls)
  }
}
