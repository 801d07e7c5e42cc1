/**
 * The older performance charts. Their points are built as in the newer
 * component (they keep its `timestamp`, which the older component does not
 * compute and nothing here reads) except for the
 * KDA: the older component formats it to a string on both branches and then
 * plots 10 for every string, so every point's KDA is 10. `LegacyChartData` is
 * that list as written; the KDA it evidently meant is the newer component's,
 * so the corrected points are `Performance.ChartData`. Three computations
 * differ besides: the trend needs only three games and a non-empty older
 * window, the moving averages are not rounded, and the card averages divide by
 * `length || 1`.
 */
module LegacyPerformance {
  import opened Opt
  import opened RiotTypes
  import Seqs
  import Rounding
  import opened Performance

  /** What the older component plots for a KDA formatted as a string. */
  const StringKdaPlotted: real := 10.0

  /**
   * `chartData` of the older component as written: every point is the newer
   * component's point, but with the KDA replaced by 10.
   */
  function LegacyChartData(matches: seq<Match>, puuid: string): (r: seq<ChartPoint>)
    ensures |r| == |ChartData(matches, puuid)|
    ensures forall k :: 0 <= k < |r| ==> r[k].kda == StringKdaPlotted
    ensures forall k :: 0 <= k < |r| ==> r[k].(kda := ChartData(matches, puuid)[k].kda) == ChartData(matches, puuid)[k]
  {
    var points := ChartData(matches, puuid);
    seq(|points|, k requires 0 <= k < |points| => points[k].(kda := StringKdaPlotted))
  }

  /** The value of `kda` in the older component: a number, or a string spelling a number. */
  datatype KdaValue = KdaNumber(n: real) | KdaText(spells: real)

  /**
   * `kda` as written: `toFixed(2)` on one branch and a template literal on the
   * other, so a string either way.
   */
  function LegacyKdaValue(p: Participant): (v: KdaValue)
    ensures v.KdaText?
    ensures p.deaths > 0 ==> v.spells == PointKda(p)
    ensures p.deaths == 0 ==> v.spells == (p.kills + p.assists) as real
  {
    if p.deaths > 0 then KdaText(Rounding.ToFixed((p.kills + p.assists) as real / p.deaths as real, 2))
    else KdaText((p.kills + p.assists) as real)
  }

  /** The value plotted for `kda`: 10 for any string, the number itself otherwise. */
  function Plotted(v: KdaValue): (r: real)
    ensures v.KdaText? ==> r == StringKdaPlotted
    ensures v.KdaNumber? ==> r == v.n
  {
    match v
    case KdaText(_) => StringKdaPlotted
    case KdaNumber(n) => n
  }

  /**
   * The discrepancy: a game whose score gives a KDA of at most 9 (one kill,
   * no assist, one death, say) is plotted at 10, although the string holds the
   * right value.
   */
  lemma LegacyKdaIgnoresDeaths(p: Participant)
    requires p.deaths > 0 && p.kills + p.assists <= 9 * p.deaths
    ensures LegacyKdaValue(p).spells == PointKda(p) < 10.0
    ensures Plotted(LegacyKdaValue(p)) == 10.0
  {
    var x := (p.kills + p.assists) as real / p.deaths as real;
    QuotientCompare((p.kills + p.assists) as real, p.deaths as real, 9.0);
    Rounding.ToFixedClose(x, 2);
  }

  /** `kda` as evidently intended: a number for a game with deaths, the string (plotted as 10) for a deathless one. */
  function IntendedKdaValue(p: Participant): (v: KdaValue)
    ensures v.KdaNumber? <==> p.deaths > 0
  {
    if p.deaths > 0 then KdaNumber(Rounding.ToFixed((p.kills + p.assists) as real / p.deaths as real, 2))
    else KdaText((p.kills + p.assists) as real)
  }

  /**
   * The corrected value plots 10 only for a deathless game, and otherwise
   * stays within half a hundredth of `(kills + assists) / deaths`; it is the
   * newer component's KDA.
   */
  lemma IntendedPointKda(p: Participant)
    ensures p.deaths == 0 ==> Plotted(IntendedKdaValue(p)) == StringKdaPlotted
    ensures p.deaths > 0 ==>
              -HalfUnit2 <= Plotted(IntendedKdaValue(p)) - (p.kills + p.assists) as real / p.deaths as real <= HalfUnit2
    ensures Plotted(IntendedKdaValue(p)) == PointKda(p)
  {
    if p.deaths > 0 {
      Rounding.ToFixedClose((p.kills + p.assists) as real / p.deaths as real, 2);
      assert Rounding.Pow10(2) == 100;
    }
  }

  /** Half a unit of the second decimal place. */
  const HalfUnit2: real := 0.005

  /** The mean of a list holding one value is that value. */
  lemma MeanConstant(xs: seq<real>, v: real)
    requires |xs| > 0 && forall k :: 0 <= k < |xs| ==> xs[k] == v
    ensures Seqs.Mean(xs) == v
  {
    Seqs.SumRealConstant(xs, v);
  }

  /** `getPerformanceTrend` of the older component. */
  function LegacyTrend(v: seq<real>): (t: Trend)
    ensures |v| <= 5 ==> t == Stable
    ensures |v| >= 6 ==> t == Compare(Recent(v), Older(v))
  {
    if |v| < 3 then Stable
    else if |Recent(v)| > 0 && |Older(v)| > 0 then Compare(Recent(v), Older(v))
    else Stable
  }

  /** Up to five games, neither component shows a trend. */
  lemma TrendsAgreeUpToFive(v: seq<real>)
    requires |v| <= 5
    ensures LegacyTrend(v) == Stable && PerformanceTrend(v) == Stable
  {
  }

  /** From eight values on, both trend computations give the same trend for the same series. */
  lemma TrendsAgreeFromEight(v: seq<real>)
    requires |v| >= 8
    ensures LegacyTrend(v) == PerformanceTrend(v)
  {
    TrendFromEight(v);
  }

  /** With six games the older component already compares one game with the last five; the newer one stays stable. */
  lemma TrendsDifferAtSix()
    ensures LegacyTrend([1.0, 1.0, 1.0, 1.0, 1.0, 2.0]) == Up
    ensures PerformanceTrend([1.0, 1.0, 1.0, 1.0, 1.0, 2.0]) == Stable
  {
    var v := [1.0, 1.0, 1.0, 1.0, 1.0, 2.0];
    assert Recent(v) == [1.0, 1.0, 1.0, 1.0, 2.0];
    assert Older(v) == [1.0];
    var tail := [2.0];
    assert Seqs.SumReal(tail) == 2.0;
    assert Seqs.SumReal([1.0] + tail) == 3.0;
    assert Seqs.SumReal([1.0] + ([1.0] + tail)) == 4.0;
    assert Seqs.SumReal([1.0] + ([1.0] + ([1.0] + tail))) == 5.0;
    assert Seqs.SumReal([1.0] + ([1.0] + ([1.0] + ([1.0] + tail)))) == 6.0;
    assert Recent(v) == [1.0] + ([1.0] + ([1.0] + ([1.0] + tail)));
    assert Seqs.Mean(Recent(v)) == 1.2;
    assert Seqs.Mean(Older(v)) == 1.0;
  }

  /** A plotted point of the older component: the raw window means from the fifth point on. */
  function LegacySmoothedAt(points: seq<ChartPoint>, i: nat): (s: Smoothed)
    requires i < |points|
    ensures s.point == points[i] && (s.averages.None? <==> i < WindowSize - 1)
  {
    if i < WindowSize - 1 then Smoothed(points[i], None)
    else Smoothed(points[i], Some(WindowAverages(
      WindowMean(points, i, KdaOf), WindowMean(points, i, CsOf), WindowMean(points, i, VisionOf))))
  }

  /** `movingAverages` of the older component: the same windows, not rounded. */
  function LegacyMovingAverages(points: seq<ChartPoint>): (r: seq<Smoothed>)
    ensures |r| == |points|
    ensures forall i :: 0 <= i < |r| ==> r[i] == LegacySmoothedAt(points, i)
  {
    seq(|points|, i requires 0 <= i < |points| => LegacySmoothedAt(points, i))
  }

  /** The newer moving averages are the older ones rounded: two decimals for KDA, one for CS and vision. */
  lemma MovingAveragesRounded(points: seq<ChartPoint>, i: nat)
    requires i < |points|
    ensures MovingAverages(points)[i].point == LegacyMovingAverages(points)[i].point
    ensures MovingAverages(points)[i].averages.None? <==> LegacyMovingAverages(points)[i].averages.None?
    ensures MovingAverages(points)[i].averages.Some? ==>
              var raw := LegacyMovingAverages(points)[i].averages.value;
              MovingAverages(points)[i].averages.value
                == WindowAverages(Rounding.ToFixed(raw.kdaAvg, 2), Rounding.ToFixed(raw.csAvg, 1), Rounding.ToFixed(raw.visionAvg, 1))
  {
    assert MovingAverages(points)[i] == SmoothedAt(points, i);
    assert LegacyMovingAverages(points)[i] == LegacySmoothedAt(points, i);
  }

  /** When the last five games share one KDA, the older component plots exactly that value. */
  lemma LegacySteadyWindow(points: seq<ChartPoint>, i: nat, v: real)
    requires WindowSize - 1 <= i < |points|
    requires forall k :: i - (WindowSize - 1) <= k <= i ==> points[k].kda == v
    ensures LegacyMovingAverages(points)[i].averages == Some(WindowAverages(v, WindowMean(points, i, CsOf), WindowMean(points, i, VisionOf)))
  {
    SteadyWindowMean(points, i, KdaOf, v);
    assert LegacyMovingAverages(points)[i] == LegacySmoothedAt(points, i);
  }

  /** `reduce(sum) / (xs.length || 1)`: the mean, or 0 for no values. */
  function MeanOrZero(xs: seq<real>): (r: real)
    ensures |xs| == 0 ==> r == 0.0
    ensures r * (if |xs| == 0 then 1 else |xs|) as real == Seqs.SumReal(xs)
  {
    if |xs| == 0 then 0.0 else Seqs.Mean(xs)
  }

  datatype LegacyCards = LegacyCards(kda: real, cs: real, vision: real, winRate: real)

  /** The summary cards and the victory line of the older component. */
  function LegacyCardsOf(points: seq<ChartPoint>): (c: LegacyCards)
    ensures |points| == 0 ==> c == LegacyCards(0.0, 0.0, 0.0, 0.0)
  {
    var n := if |points| == 0 then 1 else |points|;
    var wins := |Wins(points)| as real / n as real * 100.0;
    Rounding.ToFixedWhole(0, 0);
    Rounding.ToFixedWhole(0, 1);
    Rounding.ToFixedWhole(0, 2);
    LegacyCards(
      Rounding.ToFixed(MeanOrZero(Series(points, KdaOf)), 2),
      Rounding.ToFixed(MeanOrZero(Series(points, CsOf)), 1),
      Rounding.ToFixed(MeanOrZero(Series(points, VisionOf)), 0),
      Rounding.ToFixed(wins, 1))
  }

  /** As written every KDA is 10, so the older KDA card shows 10.00 whenever there is a point, and 0.00 otherwise. */
  lemma LegacyKdaCard(points: seq<ChartPoint>)
    requires forall k :: 0 <= k < |points| ==> points[k].kda == StringKdaPlotted
    ensures LegacyCardsOf(points).kda == if |points| == 0 then 0.0 else StringKdaPlotted
  {
    if |points| > 0 {
      MeanConstant(Series(points, KdaOf), StringKdaPlotted);
      Rounding.ToFixedWhole(10, 2);
    }
  }

  /** As written every KDA is 10, so the older KDA trend is always stable. */
  lemma LegacyKdaTrendStable(points: seq<ChartPoint>)
    requires forall k :: 0 <= k < |points| ==> points[k].kda == StringKdaPlotted
    ensures LegacyTrend(Series(points, KdaOf)) == Stable
  {
    var v := Series(points, KdaOf);
    if |v| >= 3 && |Recent(v)| > 0 && |Older(v)| > 0 {
      MeanConstant(Recent(v), StringKdaPlotted);
      MeanConstant(Older(v), StringKdaPlotted);
    }
  }

  /** The CS-per-minute and vision series of the two components are the same; only the KDA series differ. */
  lemma SeriesAgreeButKda(matches: seq<Match>, puuid: string)
    ensures Series(LegacyChartData(matches, puuid), CsOf) == Series(ChartData(matches, puuid), CsOf)
    ensures Series(LegacyChartData(matches, puuid), VisionOf) == Series(ChartData(matches, puuid), VisionOf)
    ensures Series(LegacyChartData(matches, puuid), WinOf) == Series(ChartData(matches, puuid), WinOf)
  {
  }

  /** From eight games on, both components show the same CS-per-minute and vision trends. */
  lemma ShownTrendsAgreeFromEight(matches: seq<Match>, puuid: string)
    requires |ChartData(matches, puuid)| >= 8
    ensures LegacyTrend(Series(LegacyChartData(matches, puuid), CsOf)) == PerformanceTrend(Series(ChartData(matches, puuid), CsOf))
    ensures LegacyTrend(Series(LegacyChartData(matches, puuid), VisionOf)) == PerformanceTrend(Series(ChartData(matches, puuid), VisionOf))
  {
    SeriesAgreeButKda(matches, puuid);
    TrendsAgreeFromEight(Series(ChartData(matches, puuid), CsOf));
    TrendsAgreeFromEight(Series(ChartData(matches, puuid), VisionOf));
  }

  /**
   * The card formulas of both components give the same figures on one list of
   * points; `toFixed(0)` and `Math.round` agree on the mean vision score. On
   * the corrected points the two components show the same cards.
   */
  lemma CardsAgree(points: seq<ChartPoint>)
    ensures LegacyCardsOf(points).kda == AveragesOf(points).kda
    ensures LegacyCardsOf(points).cs == AveragesOf(points).cs
    ensures LegacyCardsOf(points).vision == AveragesOf(points).vision as real
    ensures LegacyCardsOf(points).winRate == AveragesOf(points).winRate
  {
    if |points| > 0 {
      var xs := Series(points, VisionOf);
      VisionSumNonNegative(xs);
      Rounding.ToFixedNoDigits(Seqs.Mean(xs));
    }
  }

  lemma {:induction false} VisionSumNonNegative(xs: seq<real>)
    requires forall k :: 0 <= k < |xs| ==> xs[k] >= 0.0
    ensures Seqs.SumReal(xs) >= 0.0
    ensures |xs| > 0 ==> Seqs.Mean(xs) >= 0.0
  {
    if |xs| > 0 {
      VisionSumNonNegative(xs[1..]);
    }
  }
}
