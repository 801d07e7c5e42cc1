/**
 * The match detail view: the queue label, the two team rosters split by team
 * id (blue 100, red 200) with the player's own row highlighted, and each
 * team's objective counts read from the first team record with its id.
 */
module MatchDetails {
  import opened Opt
  import opened RiotTypes
  import Seqs
  import AdvancedMatchFilter

  const BlueTeamId: int := 100
  const RedTeamId: int := 200
  const UnknownQueueLabel: string := "Mode inconnu"

  /** The queue's display name, or "Mode inconnu" for an id outside the table. */
  function QueueLabel(queueId: int): (r: string)
    ensures |r| > 0
    ensures AdvancedMatchFilter.QueueName(queueId).Some? ==> r == AdvancedMatchFilter.QueueName(queueId).value
    ensures AdvancedMatchFilter.QueueName(queueId).None? ==> r == UnknownQueueLabel
  {
    AdvancedMatchFilter.QueueNamesNonEmpty(queueId);
    match AdvancedMatchFilter.QueueName(queueId)
    case Some(name) => name
    case None => UnknownQueueLabel
  }

  // ---------------------------------------------------------------------------
  // Rosters

  datatype Rosters = Rosters(blue: seq<Participant>, red: seq<Participant>)

  predicate OnBlue(p: Participant) {
    p.teamId == BlueTeamId
  }

  predicate OnRed(p: Participant) {
    p.teamId == RedTeamId
  }

  /** `sortTeams`: each roster holds exactly the participants with its team id, in the match's order. */
  function SortTeams(m: Match): (r: Rosters)
    ensures forall k :: 0 <= k < |r.blue| ==> r.blue[k].teamId == BlueTeamId && r.blue[k] in m.participants
    ensures forall k :: 0 <= k < |r.red| ==> r.red[k].teamId == RedTeamId && r.red[k] in m.participants
    ensures forall k :: 0 <= k < |m.participants| && m.participants[k].teamId == BlueTeamId ==> m.participants[k] in r.blue
    ensures forall k :: 0 <= k < |m.participants| && m.participants[k].teamId == RedTeamId ==> m.participants[k] in r.red
  {
    var blue := Seqs.Filter(m.participants, OnBlue);
    var red := Seqs.Filter(m.participants, OnRed);
    assert forall k :: 0 <= k < |blue| ==> OnBlue(blue[k]);
    assert forall k :: 0 <= k < |red| ==> OnRed(red[k]);
    Rosters(blue, red)
  }

  /** No participant appears on both rosters, and one with any other team id appears on neither. */
  lemma RostersDisjoint(m: Match, p: Participant)
    ensures !(p in SortTeams(m).blue && p in SortTeams(m).red)
    ensures p.teamId != BlueTeamId && p.teamId != RedTeamId ==> p !in SortTeams(m).blue && p !in SortTeams(m).red
  {
  }

  /** The rosters of a concatenated participant list are the rosters of each part, in turn: order and repeats are kept. */
  lemma RostersAppend(m: Match, a: seq<Participant>, b: seq<Participant>)
    requires m.participants == a + b
    ensures SortTeams(m).blue == SortTeams(m.(participants := a)).blue + SortTeams(m.(participants := b)).blue
    ensures SortTeams(m).red == SortTeams(m.(participants := a)).red + SortTeams(m.(participants := b)).red
  {
    Seqs.FilterAppend(a, b, OnBlue);
    Seqs.FilterAppend(a, b, OnRed);
  }

  /** A single participant lands on the roster of its team id, and on none for any other id. */
  lemma RostersSingle(m: Match, p: Participant)
    requires m.participants == [p]
    ensures SortTeams(m).blue == if p.teamId == BlueTeamId then [p] else []
    ensures SortTeams(m).red == if p.teamId == RedTeamId then [p] else []
  {
    assert m.participants[1..] == [];
  }

  /** When every participant is on one of the two teams, the rosters together list all of them. */
  lemma RostersCoverMatch(m: Match)
    requires forall k :: 0 <= k < |m.participants| ==> m.participants[k].teamId in {BlueTeamId, RedTeamId}
    ensures |SortTeams(m).blue| + |SortTeams(m).red| == |m.participants|
  {
    Seqs.FilterSplit(m.participants, OnBlue, OnRed);
  }

  /** The row highlighting test. */
  predicate IsCurrentPlayer(p: Participant, puuid: string) {
    p.puuid == puuid
  }

  /** The player's own row is on the roster of the player's team and is highlighted there. */
  lemma PlayerRowHighlighted(m: Match, puuid: string)
    requires HasPlayer(m, puuid)
    ensures var p := FindPlayer(m, puuid).value;
            IsCurrentPlayer(p, puuid)
            && (p.teamId == BlueTeamId ==> p in SortTeams(m).blue)
            && (p.teamId == RedTeamId ==> p in SortTeams(m).red)
  {
    var p := FindPlayer(m, puuid).value;
    var i :| 0 <= i < |m.participants| && m.participants[i] == p;
  }

  // ---------------------------------------------------------------------------
  // Objectives

  /** `teams.find(t => t.teamId === id)`. */
  function FindTeam(teams: seq<Team>, id: int): (r: Option<Team>)
    ensures r.Some? <==> exists i :: 0 <= i < |teams| && teams[i].teamId == id
    ensures r.Some? ==> exists i :: 0 <= i < |teams| && teams[i] == r.value && r.value.teamId == id
                         && forall j :: 0 <= j < i ==> teams[j].teamId != id
  {
    if |teams| == 0 then None
    else if teams[0].teamId == id then Some(teams[0])
    else
      var r := FindTeam(teams[1..], id);
      assert forall i :: 0 < i < |teams| ==> teams[i] == teams[1..][i - 1];
      r
  }

  datatype ObjectiveKind = Baron | Dragon | Tower

  function Kills(o: Objectives, kind: ObjectiveKind): nat {
    match kind
    case Baron => o.baron.kills
    case Dragon => o.dragon.kills
    case Tower => o.tower.kills
  }

  /** The count shown for a team: its record's kills, or 0 when the match has no record for that team. */
  function ObjectiveCount(m: Match, teamId: int, kind: ObjectiveKind): (r: nat)
    ensures (forall i :: 0 <= i < |m.teams| ==> m.teams[i].teamId != teamId) ==> r == 0
    ensures forall i :: 0 <= i < |m.teams| && m.teams[i].teamId == teamId
                        && (forall j :: 0 <= j < i ==> m.teams[j].teamId != teamId)
                        ==> r == Kills(m.teams[i].objectives, kind)
  {
    var t := FindTeam(m.teams, teamId);
    if t.Some? then
      FirstTeamUnique(m.teams, teamId, t.value);
      Kills(t.value.objectives, kind)
    else 0
  }

  /** Only one position can be the first with a given team id. */
  lemma FirstTeamUnique(teams: seq<Team>, id: int, t: Team)
    requires exists i :: 0 <= i < |teams| && teams[i] == t && t.teamId == id
                         && forall j :: 0 <= j < i ==> teams[j].teamId != id
    ensures forall i :: 0 <= i < |teams| && teams[i].teamId == id && (forall j :: 0 <= j < i ==> teams[j].teamId != id)
                        ==> teams[i] == t
  {
    var i0 :| 0 <= i0 < |teams| && teams[i0] == t && t.teamId == id && forall j :: 0 <= j < i0 ==> teams[j].teamId != id;
    forall i | 0 <= i < |teams| && teams[i].teamId == id && (forall j :: 0 <= j < i ==> teams[j].teamId != id)
      ensures teams[i] == t
    {
      assert !(i < i0) && !(i0 < i);
    }
  }

  /** In a match recording both teams once each, blue's counts come from the blue record and red's from the red one. */
  lemma ObjectivesOfTwoTeams(m: Match, blue: Team, red: Team, kind: ObjectiveKind)
    requires m.teams == [blue, red] && blue.teamId == BlueTeamId && red.teamId == RedTeamId
    ensures ObjectiveCount(m, BlueTeamId, kind) == Kills(blue.objectives, kind)
    ensures ObjectiveCount(m, RedTeamId, kind) == Kills(red.objectives, kind)
  {
    assert m.teams[1] == red;
  }
}
