/**
 * The performance charts: one point per ranked game of the player, oldest
 * first, with KDA, CS per minute, vision and damage share; a five-game moving
 * average; a trend per statistic comparing the last five games with the five
 * before; overall averages; and a level for each average against fixed
 * thresholds.
 */
module Performance {
  import opened Opt
  import opened RiotTypes
  import Seqs
  import Sorting
  import Rounding

  /** One point of the charts. `win` is 1 for a victory and 0 for a defeat. */
  datatype ChartPoint = ChartPoint(
    gameNumber: nat,
    championName: string,
    kda: real,
    csPerMinute: real,
    visionScore: nat,
    damageShare: real,
    win: nat,
    gameMode: int,
    kills: nat,
    deaths: nat,
    assists: nat,
    timestamp: int)

  /** The KDA plotted for a game without deaths. */
  const PerfectKda: real := 10.0

  // ---------------------------------------------------------------------------
  // Chart points

  function RankedMatches(matches: seq<Match>): (r: seq<Match>)
    ensures |r| <= |matches|
    ensures forall i :: 0 <= i < |r| ==> IsRanked(r[i].queueId) && r[i] in matches
    ensures forall i :: 0 <= i < |matches| && IsRanked(matches[i].queueId) ==> matches[i] in r
  {
    Seqs.Filter(matches, (m: Match) => IsRanked(m.queueId))
  }

  function OldestFirst(m: Match): real {
    m.gameCreation as real
  }

  /** The ranked games ordered by creation time, oldest first. */
  function SortedRanked(matches: seq<Match>): (r: seq<Match>)
    ensures forall i, j :: 0 <= i < j < |r| ==> r[i].gameCreation <= r[j].gameCreation
    ensures forall m :: m in r <==> m in RankedMatches(matches)
    ensures forall i :: 0 <= i < |r| ==> IsRanked(r[i].queueId)
    ensures |r| == |RankedMatches(matches)|
    ensures multiset(r) == multiset(RankedMatches(matches))
  {
    var ranked := RankedMatches(matches);
    SortByTime(ranked);
    Sorting.SortBy(ranked, OldestFirst)
  }

  lemma SortByTime(ranked: seq<Match>)
    requires forall i :: 0 <= i < |ranked| ==> IsRanked(ranked[i].queueId)
    ensures var r := Sorting.SortBy(ranked, OldestFirst);
            && (forall i, j :: 0 <= i < j < |r| ==> r[i].gameCreation <= r[j].gameCreation)
            && (forall m :: m in r <==> m in ranked)
            && (forall i :: 0 <= i < |r| ==> IsRanked(r[i].queueId))
            && |r| == |ranked|
            && multiset(r) == multiset(ranked)
  {
    var r := Sorting.SortBy(ranked, OldestFirst);
    Sorting.PermutationMembers(ranked, r);
    forall i | 0 <= i < |r|
      ensures IsRanked(r[i].queueId)
    {
      assert r[i] in ranked;
      var k :| 0 <= k < |ranked| && ranked[k] == r[i];
    }
    forall i, j | 0 <= i < j < |r|
      ensures r[i].gameCreation <= r[j].gameCreation
    {
      assert OldestFirst(r[i]) <= OldestFirst(r[j]);
    }
  }

  /** Champion names longer than eight characters are cut to seven followed by `...`. */
  function ShortName(name: string): (r: string)
    ensures |name| <= 8 ==> r == name
    ensures |name| > 8 ==> |r| == 10 && r[..7] == name[..7] && r[7..] == "..."
  {
    if |name| > 8 then name[..7] + "..." else name
  }

  /** The damage to champions dealt by the players of one team. */
  function TeamDamage(ps: seq<Participant>, teamId: int): nat {
    if |ps| == 0 then 0
    else (if ps[0].teamId == teamId then ps[0].totalDamageDealtToChampions else 0) + TeamDamage(ps[1..], teamId)
  }

  /** A player's own damage is part of the team total. */
  lemma {:induction false} TeamDamageIncludes(ps: seq<Participant>, p: Participant)
    requires p in ps
    ensures p.totalDamageDealtToChampions <= TeamDamage(ps, p.teamId)
  {
    if ps[0] != p {
      TeamDamageIncludes(ps[1..], p);
    }
  }

  /** The player's share of the team's damage, in per cent to one decimal; 0 when the team dealt none. */
  function DamageShare(ps: seq<Participant>, p: Participant): (r: real)
    requires p in ps
    ensures 0.0 <= r <= 100.0
  {
    var total := TeamDamage(ps, p.teamId);
    if total == 0 then 0.0
    else
      var x := p.totalDamageDealtToChampions as real / total as real * 100.0;
      TeamDamageIncludes(ps, p);
      assert x <= 100.0 by {
        assert p.totalDamageDealtToChampions as real / total as real <= 1.0;
      }
      Rounding.ToFixedBelow(x, 1, 1000);
      Rounding.ToFixed(x, 1)
  }

  /** `(kills + assists) / deaths`, or the perfect value when the player never died; two decimals. */
  function PointKda(p: Participant): (r: real)
    ensures r >= 0.0
    ensures p.deaths == 0 ==> r == PerfectKda
  {
    if p.deaths > 0 then Rounding.ToFixed((p.kills + p.assists) as real / p.deaths as real, 2)
    else PerfectKda
  }

  /**
   * Lane minions and neutral monsters per minute of game, one decimal. A game
   * of zero seconds counts as zero CS per minute.
   */
  function CsPerMinute(m: Match, p: Participant): (r: real)
    ensures r >= 0.0
  {
    if m.gameDuration == 0 then 0.0
    else Rounding.ToFixed((p.totalMinionsKilled + p.neutralMinionsKilled) as real / (m.gameDuration as real / 60.0), 1)
  }

  /** The point of the game at position `index` of the sorted ranked games, when the player took part. */
  function Point(m: Match, index: nat, puuid: string): (r: Option<ChartPoint>)
    ensures r.Some? <==> HasPlayer(m, puuid)
    ensures r.Some? ==> r.value.gameNumber == index + 1 && r.value.timestamp == m.gameCreation
                        && r.value.gameMode == m.queueId
    ensures r.Some? ==> r.value.win <= 1 && r.value.kda >= 0.0 && r.value.csPerMinute >= 0.0
                        && 0.0 <= r.value.damageShare <= 100.0
    ensures r.Some? ==> KdaFromScore(r.value)
  {
    match FindPlayer(m, puuid)
    case None => None
    case Some(p) =>
      Some(ChartPoint(index + 1, ShortName(p.championName), PointKda(p), CsPerMinute(m, p), p.visionScore,
                      DamageShare(m.participants, p), if p.win then 1 else 0, m.queueId,
                      p.kills, p.deaths, p.assists, m.gameCreation))
  }

  /** The plotted KDA agrees with the score the point carries: 10 without deaths, `(kills + assists) / deaths` to two decimals otherwise. */
  predicate KdaFromScore(pt: ChartPoint) {
    (pt.deaths == 0 ==> pt.kda == PerfectKda)
    && (pt.deaths > 0 ==> pt.kda == Rounding.ToFixed((pt.kills + pt.assists) as real / pt.deaths as real, 2))
  }

  /** The points of `ms`, numbered from `from + 1` by position; games without the player leave a gap in the numbering. */
  function Points(ms: seq<Match>, from: nat, puuid: string): (r: seq<ChartPoint>)
    ensures |r| <= |ms|
    decreases |ms|
  {
    if |ms| == 0 then []
    else
      var rest := Points(ms[1..], from + 1, puuid);
      match Point(ms[0], from, puuid)
      case None => rest
      case Some(pt) => [pt] + rest
  }

  /** The position a point stands for within `ms`. */
  function Slot(pt: ChartPoint, from: nat): int {
    pt.gameNumber - from - 1
  }

  /** `pt` is the point of the game of `ms` at the position its number gives. */
  predicate NumberedPoint(ms: seq<Match>, from: nat, pt: ChartPoint, puuid: string) {
    0 <= Slot(pt, from) < |ms| && Point(ms[Slot(pt, from)], pt.gameNumber - 1, puuid) == Some(pt)
  }

  /** Each point is the point of the game at its own position. */
  lemma {:induction false} PointsNumbered(ms: seq<Match>, from: nat, puuid: string)
    ensures forall k :: 0 <= k < |Points(ms, from, puuid)| ==> NumberedPoint(ms, from, Points(ms, from, puuid)[k], puuid)
    decreases |ms|
  {
    if |ms| > 0 {
      PointsNumbered(ms[1..], from + 1, puuid);
      var head := Point(ms[0], from, puuid);
      var rest := Points(ms[1..], from + 1, puuid);
      var r := Points(ms, from, puuid);
      var pre := if head.Some? then [head.value] else [];
      PointsCons(ms, from, puuid);
      assert r == pre + rest;
      forall k | 0 <= k < |r|
        ensures NumberedPoint(ms, from, r[k], puuid)
      {
        if k < |pre| {
          HeadNumbered(ms, from, puuid);
        } else {
          assert (pre + rest)[k] == rest[k - |pre|];
          TailNumbered(ms, from, rest[k - |pre|], puuid);
        }
      }
    }
  }

  lemma PointsCons(ms: seq<Match>, from: nat, puuid: string)
    requires |ms| > 0
    ensures var head := Point(ms[0], from, puuid);
            Points(ms, from, puuid) == (if head.Some? then [head.value] else []) + Points(ms[1..], from + 1, puuid)
  {
  }

  lemma HeadNumbered(ms: seq<Match>, from: nat, puuid: string)
    requires |ms| > 0 && Point(ms[0], from, puuid).Some?
    ensures NumberedPoint(ms, from, Point(ms[0], from, puuid).value, puuid)
  {
  }

  /** A point numbered within the tail is numbered within the whole sequence. */
  lemma TailNumbered(ms: seq<Match>, from: nat, pt: ChartPoint, puuid: string)
    requires |ms| > 0 && NumberedPoint(ms[1..], from + 1, pt, puuid)
    ensures NumberedPoint(ms, from, pt, puuid)
  {
    assert ms[1..][Slot(pt, from + 1)] == ms[Slot(pt, from)];
  }

  /** Game numbers increase along the points. */
  lemma {:induction false} PointsOrdered(ms: seq<Match>, from: nat, puuid: string)
    ensures forall k :: 0 <= k < |Points(ms, from, puuid)| ==> from < Points(ms, from, puuid)[k].gameNumber
    ensures forall k, l :: 0 <= k < l < |Points(ms, from, puuid)| ==>
              Points(ms, from, puuid)[k].gameNumber < Points(ms, from, puuid)[l].gameNumber
    decreases |ms|
  {
    if |ms| > 0 {
      PointsOrdered(ms[1..], from + 1, puuid);
      var rest := Points(ms[1..], from + 1, puuid);
      var r := Points(ms, from, puuid);
      if Point(ms[0], from, puuid).Some? {
        assert r == [Point(ms[0], from, puuid).value] + rest;
        assert forall k :: 1 <= k < |r| ==> r[k] == rest[k - 1];
      }
    }
  }

  /** Every game of `ms` with the player gets a point. */
  lemma {:induction false} PointsComplete(ms: seq<Match>, from: nat, puuid: string, j: nat)
    requires j < |ms| && HasPlayer(ms[j], puuid)
    ensures exists k :: 0 <= k < |Points(ms, from, puuid)| && Points(ms, from, puuid)[k].gameNumber == from + j + 1
    decreases |ms|
  {
    var r := Points(ms, from, puuid);
    if j == 0 {
      assert r[0] == Point(ms[0], from, puuid).value;
    } else {
      PointsComplete(ms[1..], from + 1, puuid, j - 1);
      var rest := Points(ms[1..], from + 1, puuid);
      var k :| 0 <= k < |rest| && rest[k].gameNumber == from + 1 + (j - 1) + 1;
      if Point(ms[0], from, puuid).Some? {
        assert r[k + 1] == rest[k];
      } else {
        assert r[k] == rest[k];
      }
    }
  }

  /** `chartData`: the points of the player's ranked games, oldest first. */
  function ChartData(matches: seq<Match>, puuid: string): (r: seq<ChartPoint>)
    ensures |r| <= |matches|
    ensures forall k :: 0 <= k < |r| ==> IsRanked(r[k].gameMode)
    ensures forall k, l :: 0 <= k < l < |r| ==> r[k].gameNumber < r[l].gameNumber && r[k].timestamp <= r[l].timestamp
  {
    var sorted := SortedRanked(matches);
    var r := Points(sorted, 0, puuid);
    PointsFollowGames(sorted, puuid);
    assert RankedInOrder(r);
    r
  }

  /** Every point is a ranked game, and numbers and times increase along the points. */
  predicate RankedInOrder(r: seq<ChartPoint>) {
    (forall k :: 0 <= k < |r| ==> IsRanked(r[k].gameMode))
    && (forall k, l :: 0 <= k < l < |r| ==> r[k].gameNumber < r[l].gameNumber && r[k].timestamp <= r[l].timestamp)
  }

  /** Points drawn from ranked games in time order are ranked, numbered upwards and in time order. */
  lemma PointsFollowGames(sorted: seq<Match>, puuid: string)
    requires forall i :: 0 <= i < |sorted| ==> IsRanked(sorted[i].queueId)
    requires forall i, j :: 0 <= i < j < |sorted| ==> sorted[i].gameCreation <= sorted[j].gameCreation
    ensures RankedInOrder(Points(sorted, 0, puuid))
  {
    var r := Points(sorted, 0, puuid);
    PointsNumbered(sorted, 0, puuid);
    PointsOrdered(sorted, 0, puuid);
    forall k | 0 <= k < |r|
      ensures IsRanked(r[k].gameMode)
    {
      NumberedFacts(sorted, 0, r[k], puuid);
    }
    forall k, l | 0 <= k < l < |r|
      ensures r[k].timestamp <= r[l].timestamp
    {
      NumberedFacts(sorted, 0, r[k], puuid);
      NumberedFacts(sorted, 0, r[l], puuid);
    }
  }

  /** A numbered point carries the mode and time of the game at its position. */
  lemma NumberedFacts(ms: seq<Match>, from: nat, pt: ChartPoint, puuid: string)
    requires NumberedPoint(ms, from, pt, puuid)
    ensures 0 <= Slot(pt, from) < |ms|
    ensures pt.gameMode == ms[Slot(pt, from)].queueId && pt.timestamp == ms[Slot(pt, from)].gameCreation
  {
  }

  /** Every ranked game the player took part in has its point, numbered by its position in time. */
  lemma ChartDataComplete(matches: seq<Match>, puuid: string, j: nat)
    requires j < |SortedRanked(matches)| && HasPlayer(SortedRanked(matches)[j], puuid)
    ensures exists k :: 0 <= k < |ChartData(matches, puuid)| && ChartData(matches, puuid)[k].gameNumber == j + 1
  {
    PointsComplete(SortedRanked(matches), 0, puuid, j);
    assert ChartData(matches, puuid) == Points(SortedRanked(matches), 0, puuid);
  }

  /** Every point's KDA is the perfect value for a deathless game, and the rounded ratio otherwise. */
  lemma ChartKda(matches: seq<Match>, puuid: string, k: nat)
    requires k < |ChartData(matches, puuid)|
    ensures KdaFromScore(ChartData(matches, puuid)[k])
  {
    var sorted := SortedRanked(matches);
    var r := Points(sorted, 0, puuid);
    assert ChartData(matches, puuid) == r;
    PointsNumbered(sorted, 0, puuid);
    assert NumberedPoint(sorted, 0, r[k], puuid);
  }

  // ---------------------------------------------------------------------------
  // Series, means and the moving average

  function Series(points: seq<ChartPoint>, key: ChartPoint -> real): (v: seq<real>)
    ensures |v| == |points|
    ensures forall k :: 0 <= k < |v| ==> v[k] == key(points[k])
  {
    seq(|points|, k requires 0 <= k < |points| => key(points[k]))
  }

  function KdaOf(p: ChartPoint): real { p.kda }
  function CsOf(p: ChartPoint): real { p.csPerMinute }
  function VisionOf(p: ChartPoint): real { p.visionScore as real }
  function WinOf(p: ChartPoint): real { p.win as real }

  datatype WindowAverages = WindowAverages(kdaAvg: real, csAvg: real, visionAvg: real)

  /** A point of the plotted series; the first four points carry no average. */
  datatype Smoothed = Smoothed(point: ChartPoint, averages: Option<WindowAverages>)

  const WindowSize: nat := 5

  /** The five games ending at `i`. */
  function Window(points: seq<ChartPoint>, i: nat): (w: seq<ChartPoint>)
    requires WindowSize - 1 <= i < |points|
    ensures |w| == WindowSize
    ensures forall k :: 0 <= k < WindowSize ==> w[k] == points[i - (WindowSize - 1) + k]
  {
    points[i - (WindowSize - 1)..i + 1]
  }

  function WindowMean(points: seq<ChartPoint>, i: nat, key: ChartPoint -> real): real
    requires WindowSize - 1 <= i < |points|
  {
    Seqs.Mean(Series(Window(points, i), key))
  }

  /** The plotted point `i`: the point itself, with the rounded window means from the fifth point on. */
  function SmoothedAt(points: seq<ChartPoint>, i: nat): (s: Smoothed)
    requires i < |points|
    ensures s.point == points[i] && (s.averages.None? <==> i < WindowSize - 1)
  {
    if i < WindowSize - 1 then Smoothed(points[i], None)
    else Smoothed(points[i], Some(WindowAverages(
      Rounding.ToFixed(WindowMean(points, i, KdaOf), 2),
      Rounding.ToFixed(WindowMean(points, i, CsOf), 1),
      Rounding.ToFixed(WindowMean(points, i, VisionOf), 1))))
  }

  /** `movingAverages`, two decimals for KDA and one for CS and vision. */
  function MovingAverages(points: seq<ChartPoint>): (r: seq<Smoothed>)
    ensures |r| == |points|
    ensures forall i :: 0 <= i < |r| ==> r[i] == SmoothedAt(points, i)
  {
    seq(|points|, i requires 0 <= i < |points| => SmoothedAt(points, i))
  }

  /** The mean of a window whose values all equal `v` is `v`. */
  lemma SteadyWindowMean(points: seq<ChartPoint>, i: nat, key: ChartPoint -> real, v: real)
    requires WindowSize - 1 <= i < |points|
    requires forall k :: i - (WindowSize - 1) <= k <= i ==> key(points[k]) == v
    ensures WindowMean(points, i, key) == v
  {
    var w := Window(points, i);
    var xs := Series(w, key);
    forall k | 0 <= k < |xs|
      ensures xs[k] == v
    {
      assert w[k] == points[i - (WindowSize - 1) + k];
    }
    Seqs.SumRealConstant(xs, v);
  }

  /** When the last five games share one KDA, the plotted KDA average is that value, rounded to two decimals. */
  lemma SteadyWindowAverage(points: seq<ChartPoint>, i: nat, v: real)
    requires WindowSize - 1 <= i < |points|
    requires forall k :: i - (WindowSize - 1) <= k <= i ==> points[k].kda == v
    ensures MovingAverages(points)[i].averages.Some?
    ensures MovingAverages(points)[i].averages.value.kdaAvg == Rounding.ToFixed(v, 2)
  {
    SteadyWindowMean(points, i, KdaOf, v);
    assert MovingAverages(points)[i] == SmoothedAt(points, i);
  }

  // ---------------------------------------------------------------------------
  // Trends

  datatype Trend = Up | Down | Stable

  /** `data.slice(-5)`: the last five values. */
  function Recent(v: seq<real>): (r: seq<real>)
    ensures |r| == if |v| < 5 then |v| else 5
    ensures forall k :: 0 <= k < |r| ==> r[k] == v[|v| - |r| + k]
  {
    Seqs.JsSlice(v, -5, |v|)
  }

  /** `data.slice(-10, -5)`: the five values before the last five, or fewer. */
  function Older(v: seq<real>): (r: seq<real>)
    ensures |r| == if |v| <= 5 then 0 else if |v| < 10 then |v| - 5 else 5
    ensures forall k :: 0 <= k < |r| ==> r[k] == v[|v| - 5 - |r| + k]
  {
    Seqs.JsSlice(v, -10, -5)
  }

  /** The relative change of the recent mean against the older mean, as in the trend arrows. */
  function Compare(recent: seq<real>, older: seq<real>): Trend
    requires |recent| > 0 && |older| > 0
  {
    var recentAvg := Seqs.Mean(recent);
    var olderAvg := Seqs.Mean(older);
    if olderAvg == 0.0 then Stable
    else
      var percentChange := (recentAvg - olderAvg) / olderAvg * 100.0;
      if percentChange > 10.0 then Up
      else if percentChange < -10.0 then Down
      else Stable
  }

  /** `getPerformanceTrend`: at least five values, and both windows at least three long. */
  function PerformanceTrend(v: seq<real>): Trend {
    if |v| < 5 then Stable
    else if |Recent(v)| >= 3 && |Older(v)| >= 3 then Compare(Recent(v), Older(v))
    else Stable
  }

  /** With a positive older mean, the trend is up exactly when the recent mean exceeds it by more than a tenth, and down exactly when it falls short by more than a tenth. */
  lemma CompareIff(recent: seq<real>, older: seq<real>)
    requires |recent| > 0 && |older| > 0 && Seqs.Mean(older) > 0.0
    ensures Compare(recent, older) == Up <==> Seqs.Mean(recent) > 1.1 * Seqs.Mean(older)
    ensures Compare(recent, older) == Down <==> Seqs.Mean(recent) < 0.9 * Seqs.Mean(older)
  {
    var r := Seqs.Mean(recent);
    var o := Seqs.Mean(older);
    var q := (r - o) / o;
    assert q * o == r - o;
    assert q * 100.0 > 10.0 <==> q > 0.1;
    assert q * 100.0 < -10.0 <==> q < -0.1;
    QuotientCompare(r - o, o, 0.1);
    QuotientCompare(r - o, o, -0.1);
  }

  lemma QuotientCompare(a: real, o: real, c: real)
    requires o > 0.0
    ensures a / o > c <==> a > c * o
    ensures a / o < c <==> a < c * o
  {
    var q := a / o;
    assert q * o == a;
    if q > c {
      ScaleStrict(c, q, o);
    } else {
      Rounding.ScaleMonotone(q, c, o);
    }
    if q < c {
      ScaleStrict(q, c, o);
    } else {
      Rounding.ScaleMonotone(c, q, o);
    }
  }

  lemma ScaleStrict(x: real, y: real, p: real)
    requires x < y && p > 0.0
    ensures x * p < y * p
  {
  }

  /** Fewer than eight games never show a trend: the older window is shorter than three. */
  lemma StableUnderEight(v: seq<real>)
    requires |v| < 8
    ensures PerformanceTrend(v) == Stable
  {
  }

  /** From eight games on, the trend compares the last five games with the (up to five) games before them. */
  lemma TrendFromEight(v: seq<real>)
    requires |v| >= 8
    ensures PerformanceTrend(v) == Compare(Recent(v), Older(v))
  {
  }

  // ---------------------------------------------------------------------------
  // Averages and levels

  datatype Averages = Averages(kda: real, cs: real, vision: int, winRate: real)

  function Wins(points: seq<ChartPoint>): seq<ChartPoint> {
    Seqs.Filter(points, (p: ChartPoint) => p.win != 0)
  }

  /** The summary cards: means over all points (two, one and zero decimals) and the share of wins in per cent. */
  function AveragesOf(points: seq<ChartPoint>): (a: Averages)
    ensures |points| == 0 ==> a == Averages(0.0, 0.0, 0, 0.0)
    ensures 0.0 <= a.winRate <= 100.0
  {
    if |points| == 0 then Averages(0.0, 0.0, 0, 0.0)
    else
      var n := |points| as real;
      var share := |Wins(points)| as real / n * 100.0;
      assert share <= 100.0 by {
        assert |Wins(points)| as real / n <= 1.0;
      }
      Rounding.ToFixedBelow(share, 1, 1000);
      Averages(
        Rounding.ToFixed(Seqs.Mean(Series(points, KdaOf)), 2),
        Rounding.ToFixed(Seqs.Mean(Series(points, CsOf)), 1),
        Rounding.Round(Seqs.Mean(Series(points, VisionOf))),
        Rounding.ToFixed(share, 1))
  }

  /** A player who won every charted game shows a win rate of 100. */
  lemma AllWinsShowHundred(points: seq<ChartPoint>)
    requires |points| > 0 && forall k :: 0 <= k < |points| ==> points[k].win != 0
    ensures AveragesOf(points).winRate == 100.0
  {
    Seqs.FilterKeepsAll(points, (p: ChartPoint) => p.win != 0);
    FullShare(|Wins(points)|, |points|);
    Rounding.ToFixedWhole(100, 1);
    assert AveragesOf(points).winRate == Rounding.ToFixed(100.0, 1);
  }

  lemma FullShare(wins: nat, games: nat)
    requires 0 < games && wins == games
    ensures wins as real / games as real * 100.0 == 100.0
  {
  }

  datatype Level = Poor | AverageLevel | Good | Excellent

  function LevelRank(l: Level): nat {
    match l
    case Poor => 0
    case AverageLevel => 1
    case Good => 2
    case Excellent => 3
  }

  const KdaLevels: seq<real> := [1.5, 2.5, 3.5, 5.0, 10.0]
  const CsPerMinThresholds: seq<real> := [5.0, 7.0, 8.5, 10.0]
  const VisionScoreLevels: seq<real> := [15.0, 25.0, 35.0, 50.0]

  function Ascending(x: real): real { x }

  /** `value < levels[k]`, false when there is no `k`-th threshold. */
  predicate Below(value: real, levels: seq<real>, k: nat) {
    k < |levels| && value < levels[k]
  }

  /** `getStatLevel`: the thresholds sorted ascending; below the first is poor, below the second average, below the third good. */
  function GetStatLevel(value: real, thresholds: seq<real>): (r: Level)
    ensures r == Poor <==> |thresholds| > 0 && forall k :: 0 <= k < |thresholds| ==> value < thresholds[k]
  {
    var levels := Sorting.SortBy(thresholds, Ascending);
    LowestThreshold(thresholds, levels, value);
    if Below(value, levels, 0) then Poor
    else if Below(value, levels, 1) then AverageLevel
    else if Below(value, levels, 2) then Good
    else Excellent
  }

  lemma LowestThreshold(thresholds: seq<real>, levels: seq<real>, value: real)
    requires Sorting.SortedBy(levels, Ascending) && multiset(levels) == multiset(thresholds)
    ensures Below(value, levels, 0) <==> |thresholds| > 0 && forall k :: 0 <= k < |thresholds| ==> value < thresholds[k]
  {
    Sorting.PermutationMembers(thresholds, levels);
    assert |levels| == |thresholds| by {
      assert |multiset(levels)| == |multiset(thresholds)|;
    }
    if Below(value, levels, 0) {
      forall k | 0 <= k < |thresholds|
        ensures value < thresholds[k]
      {
        assert thresholds[k] in levels;
        var j :| 0 <= j < |levels| && levels[j] == thresholds[k];
        assert Ascending(levels[0]) <= Ascending(levels[j]);
      }
    }
    if |thresholds| > 0 && forall k :: 0 <= k < |thresholds| ==> value < thresholds[k] {
      assert levels[0] in thresholds;
    }
  }

  /** Thresholds already in ascending order are compared as they are. */
  lemma LevelOfSorted(v: real, thresholds: seq<real>)
    requires Sorting.SortedBy(thresholds, Ascending)
    ensures GetStatLevel(v, thresholds)
            == if Below(v, thresholds, 0) then Poor else if Below(v, thresholds, 1) then AverageLevel
               else if Below(v, thresholds, 2) then Good else Excellent
  {
    Sorting.SortBySorted(thresholds, Ascending);
  }

  /** For ascending thresholds, only the first three decide the level. */
  lemma ThreeBands(v: real, thresholds: seq<real>)
    requires Sorting.SortedBy(thresholds, Ascending) && |thresholds| >= 3
    ensures GetStatLevel(v, thresholds)
            == if v < thresholds[0] then Poor else if v < thresholds[1] then AverageLevel
               else if v < thresholds[2] then Good else Excellent
  {
    LevelOfSorted(v, thresholds);
  }

  /** A higher value never gets a lower level. */
  lemma LevelMonotone(v: real, w: real, thresholds: seq<real>)
    requires v <= w
    ensures LevelRank(GetStatLevel(v, thresholds)) <= LevelRank(GetStatLevel(w, thresholds))
  {
  }

  /** The three threshold tables are listed in ascending order already. */
  lemma ThresholdsAscending()
    ensures Sorting.SortedBy(KdaLevels, Ascending)
    ensures Sorting.SortedBy(CsPerMinThresholds, Ascending)
    ensures Sorting.SortedBy(VisionScoreLevels, Ascending)
  {
  }

  /** The KDA card's bands: only the three lowest thresholds matter, the fourth and the "perfect" value never do. */
  lemma KdaBands(v: real)
    ensures GetStatLevel(v, KdaLevels)
            == if v < 1.5 then Poor else if v < 2.5 then AverageLevel else if v < 3.5 then Good else Excellent
  {
    ThresholdsAscending();
    ThreeBands(v, KdaLevels);
  }

  /** The CS-per-minute card's bands. */
  lemma CsBands(v: real)
    ensures GetStatLevel(v, CsPerMinThresholds)
            == if v < 5.0 then Poor else if v < 7.0 then AverageLevel else if v < 8.5 then Good else Excellent
  {
    ThresholdsAscending();
    ThreeBands(v, CsPerMinThresholds);
  }

  /** The vision card's bands. */
  lemma VisionBands(v: real)
    ensures GetStatLevel(v, VisionScoreLevels)
            == if v < 15.0 then Poor else if v < 25.0 then AverageLevel else if v < 35.0 then Good else Excellent
  {
    ThresholdsAscending();
    ThreeBands(v, VisionScoreLevels);
  }
}
