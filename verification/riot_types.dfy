/**
 * The provider's records, restricted to the fields the dashboard reads, and the
 * aggregated player view (`Summoner`). Counts are natural numbers.
 */
module RiotTypes {
  import opened Opt

  datatype Participant = Participant(
    puuid: string,
    championName: string,
    teamId: int,
    teamPosition: string,
    kills: nat,
    deaths: nat,
    assists: nat,
    win: bool,
    totalMinionsKilled: nat,
    neutralMinionsKilled: nat,
    totalDamageDealtToChampions: nat,
    visionScore: nat,
    goldEarned: nat)

  datatype Objective = Objective(first: bool, kills: nat)

  datatype Objectives = Objectives(baron: Objective, dragon: Objective, tower: Objective)

  datatype Team = Team(teamId: int, win: bool, objectives: Objectives)

  datatype Match = Match(
    matchId: string,
    queueId: int,
    gameCreation: int,
    gameDuration: nat,
    participants: seq<Participant>,
    teams: seq<Team>)

  /** The account endpoint's answer for a Riot ID. */
  datatype Account = Account(gameName: string, tagLine: string, puuid: string)

  /** The summoner endpoint's answer for a PUUID. */
  datatype SummonerRecord = SummonerRecord(id: string, profileIconId: int, summonerLevel: int)

  /** One element of the league-entries list. */
  datatype LeagueEntry = LeagueEntry(tier: string, rank: string, leaguePoints: int, wins: int, losses: int)

  /** The rank as the view model stores it (`leaguePoints` renamed `lp`). */
  datatype RankInfo = RankInfo(tier: string, rank: string, lp: int, wins: int, losses: int)

  /** The aggregated player view model. */
  datatype Summoner = Summoner(
    name: string,
    tag: string,
    puuid: string,
    profileIconId: int,
    summonerLevel: int,
    rank: Option<RankInfo>,
    matches: seq<Match>)

  const SoloDuoQueue: int := 420
  const FlexQueue: int := 440
  const DraftQueue: int := 400
  const BlindQueue: int := 430

  predicate IsRanked(queueId: int) {
    queueId == SoloDuoQueue || queueId == FlexQueue
  }

  /** `participants.find(p => p.puuid === puuid)`. */
  function FindByPuuid(ps: seq<Participant>, puuid: string): (r: Option<Participant>)
    ensures r.Some? <==> exists i :: 0 <= i < |ps| && ps[i].puuid == puuid
    ensures r.Some? ==> r.value.puuid == puuid && r.value in ps
    ensures r.Some? ==> exists i :: 0 <= i < |ps| && ps[i] == r.value
                         && forall j :: 0 <= j < i ==> ps[j].puuid != puuid
  {
    if |ps| == 0 then None
    else if ps[0].puuid == puuid then Some(ps[0])
    else
      var r := FindByPuuid(ps[1..], puuid);
      assert forall i :: 0 < i < |ps| ==> ps[i] == ps[1..][i - 1];
      r
  }

  /** The player's own row in a match, when present. */
  function FindPlayer(m: Match, puuid: string): Option<Participant> {
    FindByPuuid(m.participants, puuid)
  }

  predicate HasPlayer(m: Match, puuid: string) {
    FindPlayer(m, puuid).Some?
  }

  /** `rankData ? {tier, rank, lp: leaguePoints, wins, losses} : null`. */
  function ToRankInfo(e: LeagueEntry): (r: RankInfo)
    ensures r.lp == e.leaguePoints && r.tier == e.tier && r.rank == e.rank
    ensures r.wins == e.wins && r.losses == e.losses
  {
    RankInfo(e.tier, e.rank, e.leaguePoints, e.wins, e.losses)
  }

  /** `list.length > 0 ? list[0] : null`. */
  function FirstEntry(entries: seq<LeagueEntry>): (r: Option<LeagueEntry>)
    ensures r.None? <==> |entries| == 0
    ensures r.Some? ==> r.value == entries[0]
  {
    if |entries| > 0 then Some(entries[0]) else None
  }

  function RankOf(entry: Option<LeagueEntry>): Option<RankInfo> {
    match entry
    case None => None
    case Some(e) => Some(ToRankInfo(e))
  }

  /** Assembles the view model from the fetched parts. */
  function BuildSummoner(account: Account, record: SummonerRecord, entry: Option<LeagueEntry>, matches: seq<Match>): Summoner {
    Summoner(account.gameName, account.tagLine, account.puuid, record.profileIconId, record.summonerLevel,
             RankOf(entry), matches)
  }
}
