/**
  The metric computations of generate_report.py: the KPI dictionary of
  `analyze_user_engagement`, the feature-version and feedback-score rates,
  the device table sorted by retention, and the metric block and returned
  dictionary of `generate_detailed_report`.
 */
module GenerateReport {
  import opened EngagementTypes
  import opened Aggregation
  import opened Metrics
  import opened DataFrame

  // ------------------------------------------------------------ KPIs

  /** The `kpis` dictionary. */
  datatype Kpis = Kpis(totalUsers: nat, retentionRate: Option<real>, avgSession: Option<real>, avgClicks: Option<real>)

  /** The KPIs of the rows `t`: distinct users (at most one per row), and
      three means that are NaN exactly for an empty table. */
  function KpisOf(t: seq<Record>): (k: Kpis)
    ensures k.totalUsers <= |t| && (k.totalUsers > 0 <==> t != [])
    ensures k.retentionRate.None? <==> t == []
    ensures k.avgSession.None? <==> t == []
    ensures k.avgClicks.None? <==> t == []
  {
    Kpis(TotalUsers(t), RetentionRate(t), Mean(t, Duration), Mean(t, Clicks))
  }

  /** On a table whose flags are 0/1, whose sessions last at least 30 s and
      whose click counts are not negative (what the generator writes), the
      retention KPI is a percentage, the average session is at least 30 s
      and the average click count is not negative. */
  lemma KpiBounds(t: seq<Record>)
    requires t != [] && BinaryFlags(t)
    requires forall r :: r in t ==> r.sessionDuration >= 30 && r.clicks >= 0
    ensures 0.0 <= KpisOf(t).retentionRate.value <= 100.0
    ensures KpisOf(t).avgSession.value >= 30.0
    ensures KpisOf(t).avgClicks.value >= 0.0
  {
    RetentionRateIsRetainedShare(t);
    MeanLowerBound(t, Duration, 30);
    MeanLowerBound(t, Clicks, 0);
  }

  // ------------------------------------------------------------ rate series

  /** One entry of `groupby(col)['retention_flag'].mean() * 100`. */
  datatype Rate = Rate(key: Key, percent: real)

  /** A group-mean series times 100, in the groups' (sorted) key order. */
  function Rates(gs: seq<GroupStat>): (rs: seq<Rate>)
    ensures |rs| == |gs|
    ensures forall i :: 0 <= i < |rs| ==> rs[i] == Rate(gs[i].key, gs[i].retention * 100.0)
  {
    seq(|gs|, i requires 0 <= i < |gs| => Rate(gs[i].key, gs[i].retention * 100.0))
  }

  /** Each entry of a rate series is the retention of its key's rows; the keys
      are sorted and each appears once; with 0/1 flags each is a percentage. */
  lemma RatesOfGroups(t: seq<Record>, col: Column)
    ensures forall i, j :: 0 <= i < j < |Rates(GroupBy(t, col))| ==>
              KeyLess(Rates(GroupBy(t, col))[i].key, Rates(GroupBy(t, col))[j].key)
    ensures forall i :: 0 <= i < |Rates(GroupBy(t, col))| ==>
              RetentionRate(Select(t, col, Rates(GroupBy(t, col))[i].key)) == Some(Rates(GroupBy(t, col))[i].percent)
    ensures BinaryFlags(t) ==> forall i :: 0 <= i < |Rates(GroupBy(t, col))| ==>
              0.0 <= Rates(GroupBy(t, col))[i].percent <= 100.0
  {
    var rs := Rates(GroupBy(t, col));
    forall i | 0 <= i < |rs|
      ensures RetentionRate(Select(t, col, rs[i].key)) == Some(rs[i].percent)
    {
      RateEntry(t, col, i);
    }
    if BinaryFlags(t) {
      forall i | 0 <= i < |rs| ensures 0.0 <= rs[i].percent <= 100.0 {
        RateEntryBounds(t, col, i);
      }
    }
  }

  lemma RateEntry(t: seq<Record>, col: Column, i: nat)
    requires i < |Rates(GroupBy(t, col))|
    ensures RetentionRate(Select(t, col, Rates(GroupBy(t, col))[i].key)) == Some(Rates(GroupBy(t, col))[i].percent)
  {
    var gs := GroupBy(t, col);
    assert Rates(gs)[i] == Rate(gs[i].key, gs[i].retention * 100.0);
    GroupRateIsFilterRate(t, col, i);
  }

  lemma RateEntryBounds(t: seq<Record>, col: Column, i: nat)
    requires BinaryFlags(t) && i < |Rates(GroupBy(t, col))|
    ensures 0.0 <= Rates(GroupBy(t, col))[i].percent <= 100.0
  {
    GroupRetentionBounds(t, col);
  }

  /** `retention_by_feature`. */
  function RetentionByFeature(t: seq<Record>): seq<Rate> {
    Rates(GroupBy(t, FeatureVersion))
  }

  /** Each entry of `retention_by_feature` is the A/B rate of that version. */
  lemma RetentionByFeatureMatchesAB(t: seq<Record>)
    ensures forall i, v :: 0 <= i < |RetentionByFeature(t)| && RetentionByFeature(t)[i].key == Text(v) ==>
              FeatureRetention(t, v) == Some(RetentionByFeature(t)[i].percent)
  {
    RatesOfGroups(t, FeatureVersion);
  }

  /** `feedback_retention`: grouped by the score; rows without one are dropped. */
  function FeedbackRetention(t: seq<Record>): seq<Rate> {
    Rates(GroupBy(t, FeedbackScore))
  }

  /** Rows without a score affect neither the feedback rates nor the average
      feedback. */
  lemma FeedbackIgnoresMissing(t: seq<Record>)
    ensures FeedbackRetention(Filter(t, HasKey(FeedbackScore))) == FeedbackRetention(t)
    ensures AvgFeedback(Filter(t, HasKey(FeedbackScore))) == AvgFeedback(t)
  {
    GroupByIgnoresMissingKeys(t, FeedbackScore);
    AvgFeedbackIgnoresMissing(t);
  }

  /** Every key of the feedback rates is a score some row has. */
  lemma FeedbackKeysPresent(t: seq<Record>)
    ensures forall i :: 0 <= i < |FeedbackRetention(t)| ==>
              exists r :: r in t && r.feedbackScore.Some? && FeedbackRetention(t)[i].key == Score(r.feedbackScore.value)
  {
    var gs := GroupBy(t, FeedbackScore);
    var fr := FeedbackRetention(t);
    forall i | 0 <= i < |fr|
      ensures exists r :: r in t && r.feedbackScore.Some? && fr[i].key == Score(r.feedbackScore.value)
    {
      var k := gs[i].key;
      assert fr[i].key == k;
      assert k in Keys(t, FeedbackScore);
      var r :| r in t && KeyOf(FeedbackScore, r) == Some(k);
      assert r.feedbackScore.Some? && k == Score(r.feedbackScore.value);
    }
  }

  /** The network list of the performance card. */
  function NetworkRates(t: seq<Record>): seq<Rate> {
    Rates(GroupBy(t, Network))
  }

  /** One entry per network present, in name order, each that network's rate. */
  lemma NetworkRatesCover(t: seq<Record>)
    ensures forall r :: r in t ==> exists i :: 0 <= i < |NetworkRates(t)| && NetworkRates(t)[i].key == Text(r.network)
    ensures forall i :: 0 <= i < |NetworkRates(t)| ==>
              RetentionRate(Select(t, Network, NetworkRates(t)[i].key)) == Some(NetworkRates(t)[i].percent)
  {
    RatesOfGroups(t, Network);
    var gs := GroupBy(t, Network);
    forall r | r in t
      ensures exists i :: 0 <= i < |NetworkRates(t)| && NetworkRates(t)[i].key == Text(r.network)
    {
      assert KeyOf(Network, r) == Some(Text(r.network));
      var i :| 0 <= i < |gs| && gs[i].key == Text(r.network);
      assert NetworkRates(t)[i].key == Text(r.network);
    }
  }

  // ------------------------------------------------------------ device table

  /** `device_analysis`: the device groups sorted by descending retention. */
  function DeviceAnalysis(t: seq<Record>): seq<GroupStat> {
    SortByRetention(GroupBy(t, Device))
  }

  /** The device table holds exactly the device groups, in non-increasing
      order of retention. */
  lemma DeviceAnalysisOrdered(t: seq<Record>)
    ensures multiset(DeviceAnalysis(t)) == multiset(GroupBy(t, Device))
    ensures forall i, j :: 0 <= i < j < |DeviceAnalysis(t)| ==>
              DeviceAnalysis(t)[i].retention >= DeviceAnalysis(t)[j].retention
  {
    RankedNonIncreasing(DeviceAnalysis(t));
  }

  /** `df[df['device'] == d]['retention_flag'].mean() * 100`, for Android and iOS. */
  function DeviceRetention(t: seq<Record>, d: string): (p: Option<real>)
    ensures p.None? <==> forall r :: r in t ==> r.device != d
  {
    var s := Select(t, Device, Text(d));
    assert forall r :: r in s <==> r in t && r.device == d;
    RetentionRate(s)
  }

  // ------------------------------------------------------------ detailed report

  /** `.max() * 100` on a grouping is the rate of the key `idxmax` returns,
      and no key's rows have a higher rate. */
  lemma BestRateIsBestKeyRate(t: seq<Record>, col: Column)
    ensures BestRate(GroupBy(t, col)).Some? <==> BestKey(GroupBy(t, col)).Some?
    ensures BestKey(GroupBy(t, col)).Some? ==>
              BestRate(GroupBy(t, col)) == RetentionRate(Select(t, col, BestKey(GroupBy(t, col)).value))
    ensures BestRate(GroupBy(t, col)).Some? ==>
              forall k :: Select(t, col, k) != [] ==>
                RetentionRate(Select(t, col, k)).value <= BestRate(GroupBy(t, col)).value
  {
    var gs := GroupBy(t, col);
    if gs != [] {
      BestRateOfBestKey(gs);
      GroupRateIsFilterRate(t, col, IdxMax(gs));
      forall k | Select(t, col, k) != []
        ensures RetentionRate(Select(t, col, k)).value <= BestRate(gs).value
      {
        var j := GroupOfKey(t, col, k);
        GroupRateIsFilterRate(t, col, j);
      }
    }
  }

  /** `len(low_engagement) / len(df) * 100`; None where Python raises
      ZeroDivisionError on an empty table. */
  function LowShare(t: seq<Record>): (p: Option<real>)
    ensures p.None? <==> t == []
    ensures p.Some? ==> 0.0 <= p.value <= 100.0
  {
    if |t| == 0 then None
    else
      PercentBounds(Count(t, Low), |t|);
      Some(Count(t, Low) as real / |t| as real * 100.0)
  }

  /** `high_engagement_retention - low_engagement_retention`. */
  function EngagementGap(t: seq<Record>): (g: Option<real>)
    ensures g.Some? <==> (exists r :: r in t && IsHigh(r)) && (exists r :: r in t && IsLow(r))
  {
    Difference(SegmentRetention(t, High), SegmentRetention(t, Low))
  }

  /** The gap is high minus low retention and, for 0/1 flags, lies in [-100, 100]. */
  lemma EngagementGapBounds(t: seq<Record>)
    requires BinaryFlags(t)
    ensures EngagementGap(t).Some? ==>
              EngagementGap(t).value == SegmentRetention(t, High).value - SegmentRetention(t, Low).value
              && -100.0 <= EngagementGap(t).value <= 100.0
  {
    SegmentRetentionBounds(t, High);
    SegmentRetentionBounds(t, Low);
  }

  /** The values `generate_detailed_report` computes before templating. */
  datatype DetailedMetrics = DetailedMetrics(
    featureARetention: Option<real>,
    featureBRetention: Option<real>,
    featureAdvantage: Option<real>,
    bestNetwork: Option<Key>,
    bestNetworkRate: Option<real>,
    bestDevice: Option<Key>,
    bestDeviceRate: Option<real>,
    highEngagementRetention: Option<real>,
    lowEngagementRetention: Option<real>,
    bestAgeGroup: Option<Key>,
    bestAgeRate: Option<real>,
    lowShare: Option<real>,
    engagementGap: Option<real>)

  /** The detailed metrics of the rows `t`: each best rate exists with its
      best key and is that key's own rate; the advantage and the gap are
      differences of the rates beside them. */
  function DetailedMetricsOf(t: seq<Record>): (d: DetailedMetrics)
    ensures d.featureAdvantage == Difference(d.featureARetention, d.featureBRetention)
    ensures d.engagementGap == Difference(d.highEngagementRetention, d.lowEngagementRetention)
    ensures d.bestNetwork.Some? ==> d.bestNetworkRate == RetentionRate(Select(t, Network, d.bestNetwork.value))
    ensures d.bestDevice.Some? ==> d.bestDeviceRate == RetentionRate(Select(t, Device, d.bestDevice.value))
    ensures d.bestAgeGroup.Some? ==> d.bestAgeRate == RetentionRate(Select(t, AgeGroup, d.bestAgeGroup.value))
    ensures d.bestNetworkRate.Some? <==> d.bestNetwork.Some?
    ensures d.bestDeviceRate.Some? <==> d.bestDevice.Some?
    ensures d.bestAgeRate.Some? <==> d.bestAgeGroup.Some?
    ensures d.lowShare.None? <==> t == []
  {
    BestRateIsBestKeyRate(t, Network);
    BestRateIsBestKeyRate(t, Device);
    BestRateIsBestKeyRate(t, AgeGroup);
    DetailedMetrics(
      FeatureRetention(t, "A"),
      FeatureRetention(t, "B"),
      FeatureAdvantage(t),
      BestKey(GroupBy(t, Network)),
      BestRate(GroupBy(t, Network)),
      BestKey(GroupBy(t, Device)),
      BestRate(GroupBy(t, Device)),
      SegmentRetention(t, High),
      SegmentRetention(t, Low),
      BestKey(GroupBy(t, AgeGroup)),
      BestRate(GroupBy(t, AgeGroup)),
      LowShare(t),
      EngagementGap(t))
  }

  /** The dictionary `generate_detailed_report` returns. */
  datatype ReportResults = ReportResults(
    featureARetention: Option<real>,
    featureBRetention: Option<real>,
    featureAdvantage: Option<real>,
    bestNetwork: Option<Key>,
    bestDevice: Option<Key>,
    highEngagementUsers: nat,
    lowEngagementUsers: nat)

  /** The returned dictionary: the A/B fields and best keys of the detailed
      metrics, and the sizes of the two segments, which are disjoint. */
  function ReportResultsOf(t: seq<Record>): (res: ReportResults)
    ensures res.featureAdvantage == Difference(res.featureARetention, res.featureBRetention)
    ensures res.highEngagementUsers + res.lowEngagementUsers <= |t|
    ensures res.highEngagementUsers > 0 <==> exists r :: r in t && IsHigh(r)
    ensures res.lowEngagementUsers > 0 <==> exists r :: r in t && IsLow(r)
  {
    var d := DetailedMetricsOf(t);
    SegmentCountsBound(t);
    NonEmptyFilter(t, High);
    NonEmptyFilter(t, Low);
    ReportResults(d.featureARetention, d.featureBRetention, d.featureAdvantage,
                  d.bestNetwork, d.bestDevice, Count(t, High), Count(t, Low))
  }

  lemma NonEmptyFilter(t: seq<Record>, c: Condition)
    ensures Count(t, c) > 0 <==> exists r :: r in t && Holds(c, r)
  {
    FilterEmpty(t, c);
  }

  /** `generate_detailed_report(df, kpis)`: computes the metrics, adding the
      `age_group` column to the caller's frame, and returns the dictionary.
      The KPIs are only written into the HTML. */
  method GenerateDetailedReport(df: Frame, kpis: Kpis) returns (res: ReportResults)
    modifies df
    ensures df.rows == old(df.rows)
    ensures df.AgeGroupAdded()
    ensures res == ReportResultsOf(df.rows)
  {
    var t := df.rows;
    var featureA := FeatureRetention(t, "A");
    var featureB := FeatureRetention(t, "B");
    var featureAdvantage := Difference(featureA, featureB);
    var bestNetwork := BestKey(GroupBy(t, Network));
    var bestDevice := BestKey(GroupBy(t, Device));
    var high := Filter(t, High);
    var low := Filter(t, Low);
    df.AddAgeGroup();
    res := ReportResults(featureA, featureB, featureAdvantage, bestNetwork, bestDevice, |high|, |low|);
  }

  /** `analyze_user_engagement(df)`: the KPIs, then the detailed report. */
  method AnalyzeUserEngagement(df: Frame) returns (res: ReportResults)
    modifies df
    ensures df.rows == old(df.rows)
    ensures df.AgeGroupAdded()
    ensures res == ReportResultsOf(df.rows)
  {
    var kpis := KpisOf(df.rows);
    res := GenerateDetailedReport(df, kpis);
  }
}
