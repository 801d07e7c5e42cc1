/**
 * The per-champion rollup the champion panels share: the player's own row is
 * looked up in every match (matches without it are skipped) and the rows are
 * folded, in match order, into one running total per champion name. The
 * totals come out in order of first appearance, as `Object.values` lists
 * string keys.
 */
module ChampionStats {
  import opened Opt
  import opened RiotTypes
  import Seqs

  datatype Totals = Totals(
    championName: string,
    games: nat,
    wins: nat,
    kills: nat,
    deaths: nat,
    assists: nat,
    totalDamage: nat,
    goldEarned: nat,
    cs: nat,
    visionScore: nat)

  function Zero(name: string): Totals {
    Totals(name, 0, 0, 0, 0, 0, 0, 0, 0, 0)
  }

  /** One game's contribution; CS counts lane minions and neutral monsters. */
  function AddRow(t: Totals, p: Participant): Totals {
    t.(games := t.games + 1,
       wins := t.wins + (if p.win then 1 else 0),
       kills := t.kills + p.kills,
       deaths := t.deaths + p.deaths,
       assists := t.assists + p.assists,
       totalDamage := t.totalDamage + p.totalDamageDealtToChampions,
       goldEarned := t.goldEarned + p.goldEarned,
       cs := t.cs + p.totalMinionsKilled + p.neutralMinionsKilled,
       visionScore := t.visionScore + p.visionScore)
  }

  /** The player's rows, in match order; matches without the player contribute nothing. */
  function PlayerRows(matches: seq<Match>, puuid: string): (rows: seq<Participant>)
    ensures |rows| <= |matches|
    ensures forall k :: 0 <= k < |rows| ==> rows[k].puuid == puuid
    ensures forall j :: 0 <= j < |matches| && FindPlayer(matches[j], puuid).Some? ==> FindPlayer(matches[j], puuid).value in rows
  {
    if |matches| == 0 then []
    else
      var rest := PlayerRows(matches[1..], puuid);
      assert forall j :: 1 <= j < |matches| ==> matches[j] == matches[1..][j - 1];
      match FindPlayer(matches[0], puuid)
      case None => rest
      case Some(p) => [p] + rest
  }

  /** The rows are taken match by match, so they keep the matches' order. */
  lemma {:induction false} PlayerRowsAppend(a: seq<Match>, b: seq<Match>, puuid: string)
    ensures PlayerRows(a + b, puuid) == PlayerRows(a, puuid) + PlayerRows(b, puuid)
  {
    if |a| > 0 {
      assert (a + b)[1..] == a[1..] + b;
      assert (a + b)[0] == a[0];
      PlayerRowsAppend(a[1..], b, puuid);
    } else {
      assert a + b == b;
    }
  }

  predicate HasRow(rows: seq<Participant>, name: string) {
    exists k :: 0 <= k < |rows| && rows[k].championName == name
  }

  /**
   * Reference definition: the totals of one champion computed straight from
   * the rows, independently of the running fold.
   */
  function TotalsFor(rows: seq<Participant>, name: string): (t: Totals)
    ensures t.championName == name
    ensures t.wins <= t.games
    ensures t.games == 0 <==> !HasRow(rows, name)
    decreases |rows|
  {
    if |rows| == 0 then Zero(name)
    else
      var prefix := rows[..|rows| - 1];
      var p := rows[|rows| - 1];
      var t := TotalsFor(prefix, name);
      assert forall k :: 0 <= k < |prefix| ==> prefix[k] == rows[k];
      if p.championName == name then AddRow(t, p) else t
  }

  predicate DistinctNames(stats: seq<Totals>) {
    forall i, j :: 0 <= i < j < |stats| ==> stats[i].championName != stats[j].championName
  }

  predicate Named(stats: seq<Totals>, name: string) {
    exists i :: 0 <= i < |stats| && stats[i].championName == name
  }

  /** `stats[name]` lookup. */
  function IndexOf(stats: seq<Totals>, name: string): (r: Option<nat>)
    ensures r.Some? ==> r.value < |stats| && stats[r.value].championName == name
    ensures r.None? <==> !Named(stats, name)
  {
    if |stats| == 0 then None
    else if stats[0].championName == name then Some(0)
    else
      var rest := IndexOf(stats[1..], name);
      assert forall i :: 1 <= i < |stats| ==> stats[i] == stats[1..][i - 1];
      match rest
      case None => None
      case Some(k) => Some(k + 1)
  }

  /** One `forEach` step: create the champion's entry if needed, then add the row to it. */
  function Accumulate(stats: seq<Totals>, p: Participant): seq<Totals> {
    match IndexOf(stats, p.championName)
    case Some(i) => stats[i := AddRow(stats[i], p)]
    case None => stats + [AddRow(Zero(p.championName), p)]
  }

  /** The rollup keeps one entry per champion played, each equal to the reference totals. */
  ghost predicate RollupOf(stats: seq<Totals>, rows: seq<Participant>) {
    DistinctNames(stats)
    && (forall i :: 0 <= i < |stats| ==> stats[i] == TotalsFor(rows, stats[i].championName))
    && (forall name :: Named(stats, name) <==> HasRow(rows, name))
  }

  /** The per-champion totals of the given rows, in order of first appearance. */
  function Rollup(rows: seq<Participant>): (stats: seq<Totals>)
    ensures DistinctNames(stats)
    ensures forall i :: 0 <= i < |stats| ==> stats[i] == TotalsFor(rows, stats[i].championName)
    ensures forall name :: Named(stats, name) <==> HasRow(rows, name)
    decreases |rows|
  {
    if |rows| == 0 then []
    else
      var prefix := rows[..|rows| - 1];
      var p := rows[|rows| - 1];
      var prev := Rollup(prefix);
      assert rows == prefix + [p];
      AccumulateStep(prefix, p, prev);
      Accumulate(prev, p)
  }

  /** The position of the first row for `name`, or `|rows|` when there is none. */
  function FirstRow(rows: seq<Participant>, name: string): (r: nat)
    ensures r <= |rows|
    ensures r < |rows| ==> rows[r].championName == name
    ensures forall k :: 0 <= k < r ==> rows[k].championName != name
  {
    if |rows| == 0 then 0
    else if rows[0].championName == name then 0
    else
      var r := 1 + FirstRow(rows[1..], name);
      assert forall k :: 1 <= k < |rows| ==> rows[k] == rows[1..][k - 1];
      r
  }

  /** The entries are listed in the order their champions were first played. */
  ghost predicate InFirstPlayOrder(stats: seq<Totals>, rows: seq<Participant>) {
    forall i, j :: 0 <= i < j < |stats| ==> FirstRow(rows, stats[i].championName) < FirstRow(rows, stats[j].championName)
  }

  /** A row appended at the end leaves the first row of every champion already played where it was. */
  lemma FirstRowSnoc(prefix: seq<Participant>, p: Participant, name: string)
    ensures HasRow(prefix, name) ==> FirstRow(prefix + [p], name) == FirstRow(prefix, name) < |prefix|
    ensures !HasRow(prefix, name) && p.championName == name ==> FirstRow(prefix + [p], name) == |prefix|
  {
    var rows := prefix + [p];
    var r0 := FirstRow(prefix, name);
    var r := FirstRow(rows, name);
    if HasRow(prefix, name) {
      var k :| 0 <= k < |prefix| && prefix[k].championName == name;
      assert r0 <= k;
      assert rows[r0] == prefix[r0];
    } else if p.championName == name {
      assert rows[|prefix|] == p;
    }
  }

  /** `Object.values` of the running totals: one entry per champion, in the order the champions were first played. */
  lemma {:induction false} RollupFirstPlayOrder(rows: seq<Participant>)
    ensures InFirstPlayOrder(Rollup(rows), rows)
    decreases |rows|
  {
    if |rows| > 0 {
      var prefix := rows[..|rows| - 1];
      var p := rows[|rows| - 1];
      var prev := Rollup(prefix);
      RollupFirstPlayOrder(prefix);
      assert rows == prefix + [p];
      assert Rollup(rows) == Accumulate(prev, p);
      forall i | 0 <= i < |prev|
        ensures HasRow(prefix, prev[i].championName)
      {
        assert Named(prev, prev[i].championName);
      }
      FirstRowsKept(prev, prefix, p);
      match IndexOf(prev, p.championName)
      case Some(k) =>
        OrderAfterUpdate(prev, prev[k := AddRow(prev[k], p)], prefix, rows);
      case None =>
        FirstRowSnoc(prefix, p, p.championName);
        OrderAfterAppend(prev, AddRow(Zero(p.championName), p), prefix, rows);
    }
  }

  lemma FirstRowsKept(prev: seq<Totals>, prefix: seq<Participant>, p: Participant)
    requires forall i :: 0 <= i < |prev| ==> HasRow(prefix, prev[i].championName)
    ensures forall i :: 0 <= i < |prev| ==>
              FirstRow(prefix + [p], prev[i].championName) == FirstRow(prefix, prev[i].championName) < |prefix|
  {
    forall i | 0 <= i < |prev|
      ensures FirstRow(prefix + [p], prev[i].championName) == FirstRow(prefix, prev[i].championName) < |prefix|
    {
      FirstRowSnoc(prefix, p, prev[i].championName);
    }
  }

  /** Updating entries in place keeps their order when no champion's first row moves. */
  lemma OrderAfterUpdate(prev: seq<Totals>, next: seq<Totals>, prefix: seq<Participant>, rows: seq<Participant>)
    requires InFirstPlayOrder(prev, prefix)
    requires |next| == |prev| && forall i :: 0 <= i < |prev| ==> next[i].championName == prev[i].championName
    requires forall i :: 0 <= i < |prev| ==> FirstRow(rows, prev[i].championName) == FirstRow(prefix, prev[i].championName)
    ensures InFirstPlayOrder(next, rows)
  {
  }

  /** A champion first played in the last row goes after every earlier one. */
  lemma OrderAfterAppend(prev: seq<Totals>, t: Totals, prefix: seq<Participant>, rows: seq<Participant>)
    requires InFirstPlayOrder(prev, prefix)
    requires forall i :: 0 <= i < |prev| ==> FirstRow(rows, prev[i].championName) == FirstRow(prefix, prev[i].championName) < |prefix|
    requires FirstRow(rows, t.championName) == |prefix|
    ensures InFirstPlayOrder(prev + [t], rows)
  {
    var next := prev + [t];
    forall i, j | 0 <= i < j < |next|
      ensures FirstRow(rows, next[i].championName) < FirstRow(rows, next[j].championName)
    {
      assert next[i] == prev[i];
      assert j < |prev| ==> next[j] == prev[j];
      assert j == |prev| ==> next[j] == t;
    }
  }

  /** A champion nobody played has zero totals. */
  lemma {:induction false} TotalsForAbsent(rows: seq<Participant>, name: string)
    requires !HasRow(rows, name)
    ensures TotalsFor(rows, name) == Zero(name)
    decreases |rows|
  {
    if |rows| > 0 {
      var prefix := rows[..|rows| - 1];
      assert !HasRow(prefix, name) by {
        assert forall k :: 0 <= k < |prefix| ==> prefix[k] == rows[k];
      }
      TotalsForAbsent(prefix, name);
    }
  }

  /** Appending a row adds it to its own champion's totals and to no other. */
  lemma TotalsForSnoc(prefix: seq<Participant>, p: Participant, name: string)
    ensures TotalsFor(prefix + [p], name)
            == if p.championName == name then AddRow(TotalsFor(prefix, name), p) else TotalsFor(prefix, name)
  {
    assert (prefix + [p])[..|prefix|] == prefix;
  }

  /** A row appended for `p` adds exactly `p`'s champion to the names played. */
  lemma HasRowSnoc(prefix: seq<Participant>, p: Participant, name: string)
    ensures HasRow(prefix + [p], name) <==> HasRow(prefix, name) || p.championName == name
  {
    var rows := prefix + [p];
    if HasRow(prefix, name) {
      var k :| 0 <= k < |prefix| && prefix[k].championName == name;
      assert rows[k] == prefix[k];
    }
    if HasRow(rows, name) && !HasRow(prefix, name) {
      var k :| 0 <= k < |rows| && rows[k].championName == name;
      if k < |prefix| {
        assert rows[k] == prefix[k];
      }
    }
    if p.championName == name {
      assert rows[|prefix|] == p;
    }
  }

  lemma AccumulateStep(prefix: seq<Participant>, p: Participant, prev: seq<Totals>)
    requires RollupOf(prev, prefix)
    ensures RollupOf(Accumulate(prev, p), prefix + [p])
  {
    match IndexOf(prev, p.championName)
    case Some(i) => AccumulateHit(prefix, p, prev, i);
    case None => AccumulateMiss(prefix, p, prev);
  }

  /** A champion already listed has its entry updated in place. */
  lemma AccumulateHit(prefix: seq<Participant>, p: Participant, prev: seq<Totals>, i: nat)
    requires RollupOf(prev, prefix)
    requires i < |prev| && prev[i].championName == p.championName
    ensures RollupOf(prev[i := AddRow(prev[i], p)], prefix + [p])
  {
    var rows := prefix + [p];
    var next := prev[i := AddRow(prev[i], p)];
    assert forall j :: 0 <= j < |next| ==> next[j].championName == prev[j].championName;
    forall j | 0 <= j < |next|
      ensures next[j] == TotalsFor(rows, next[j].championName)
    {
      TotalsForSnoc(prefix, p, prev[j].championName);
    }
    forall name
      ensures Named(next, name) <==> HasRow(rows, name)
    {
      HasRowSnoc(prefix, p, name);
      if Named(prev, name) {
        var j :| 0 <= j < |prev| && prev[j].championName == name;
        assert next[j].championName == name;
      }
      if Named(next, name) {
        var j :| 0 <= j < |next| && next[j].championName == name;
        assert prev[j].championName == name;
      }
    }
  }

  /** A champion not yet listed gets a new entry at the end. */
  lemma AccumulateMiss(prefix: seq<Participant>, p: Participant, prev: seq<Totals>)
    requires RollupOf(prev, prefix)
    requires !Named(prev, p.championName)
    ensures RollupOf(prev + [AddRow(Zero(p.championName), p)], prefix + [p])
  {
    var rows := prefix + [p];
    var next := prev + [AddRow(Zero(p.championName), p)];
    TotalsForAbsent(prefix, p.championName);
    forall j | 0 <= j < |next|
      ensures next[j] == TotalsFor(rows, next[j].championName)
    {
      if j < |prev| {
        TotalsForSnoc(prefix, p, prev[j].championName);
      } else {
        TotalsForSnoc(prefix, p, p.championName);
      }
    }
    forall name
      ensures Named(next, name) <==> HasRow(rows, name)
    {
      HasRowSnoc(prefix, p, name);
      if Named(prev, name) {
        var j :| 0 <= j < |prev| && prev[j].championName == name;
        assert next[j].championName == name;
      }
      if Named(next, name) {
        var j :| 0 <= j < |next| && next[j].championName == name;
        if j < |prev| {
          assert prev[j].championName == name;
        }
      }
      if p.championName == name {
        assert next[|prev|].championName == name;
      }
    }
  }

  // ---------------------------------------------------------------------------
  // Counting games

  function SumGames(stats: seq<Totals>): nat {
    if |stats| == 0 then 0 else stats[0].games + SumGames(stats[1..])
  }

  lemma {:induction false} SumGamesAppend(stats: seq<Totals>, t: Totals)
    ensures SumGames(stats + [t]) == SumGames(stats) + t.games
  {
    if |stats| > 0 {
      assert (stats + [t])[1..] == stats[1..] + [t];
      SumGamesAppend(stats[1..], t);
    }
  }

  lemma {:induction false} SumGamesUpdate(stats: seq<Totals>, i: nat, t: Totals)
    requires i < |stats|
    ensures SumGames(stats[i := t]) + stats[i].games == SumGames(stats) + t.games
  {
    if i > 0 {
      assert stats[i := t][1..] == stats[1..][i - 1 := t];
      SumGamesUpdate(stats[1..], i - 1, t);
    } else {
      assert stats[i := t][1..] == stats[1..];
    }
  }

  /** Every row is counted exactly once: the games over all champions add up to the number of rows. */
  lemma {:induction false} RollupCountsEveryGame(rows: seq<Participant>)
    ensures SumGames(Rollup(rows)) == |rows|
    decreases |rows|
  {
    if |rows| > 0 {
      var prefix := rows[..|rows| - 1];
      var p := rows[|rows| - 1];
      var prev := Rollup(prefix);
      RollupCountsEveryGame(prefix);
      assert Rollup(rows) == Accumulate(prev, p);
      match IndexOf(prev, p.championName)
      case Some(i) =>
        SumGamesUpdate(prev, i, AddRow(prev[i], p));
      case None =>
        SumGamesAppend(prev, AddRow(Zero(p.championName), p));
    }
  }

  /** Every entry of the rollup stands for at least one game, and never more wins than games. */
  lemma RollupEntriesPlayed(rows: seq<Participant>)
    ensures forall i :: 0 <= i < |Rollup(rows)| ==> 1 <= Rollup(rows)[i].games && Rollup(rows)[i].wins <= Rollup(rows)[i].games
  {
    var stats := Rollup(rows);
    forall i | 0 <= i < |stats|
      ensures 1 <= stats[i].games && stats[i].wins <= stats[i].games
    {
      assert Named(stats, stats[i].championName);
    }
  }

  /** Skipped matches are exactly those without the player: the rows number the matches that contain the player. */
  lemma {:induction false} PlayerRowsCount(matches: seq<Match>, puuid: string)
    ensures |PlayerRows(matches, puuid)| == |Seqs.Filter(matches, m => HasPlayer(m, puuid))|
  {
    if |matches| > 0 {
      PlayerRowsCount(matches[1..], puuid);
    }
  }
}
