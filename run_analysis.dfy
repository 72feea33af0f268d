/**
  The metric block of `optimized_complete_analysis` in run_analysis.py: the
  KPIs, the A/B comparison, the network, device, age-group, location, feature
  and gender groupings, the engagement segments, the numbers placed in the
  report's tables, and the dictionary the function returns.
 */
module RunAnalysis {
  import opened EngagementTypes
  import opened Aggregation
  import opened Metrics
  import opened DataFrame

  // ------------------------------------------------------------ groupings

  /** `df.groupby('location')['retention_flag'].mean().nlargest(5)`. */
  function TopLocations(t: seq<Record>): seq<GroupStat> {
    NLargest(GroupBy(t, Location), 5)
  }

  /** At most five locations, ranked by non-increasing retention, each the
      mean of that location's rows, and each ranked before every location left
      out (a tie at the cut-off goes to the first name). */
  lemma TopLocationsProperties(t: seq<Record>)
    ensures |TopLocations(t)| <= 5 && |TopLocations(t)| <= |GroupBy(t, Location)|
    ensures |GroupBy(t, Location)| >= 5 ==> |TopLocations(t)| == 5
    ensures |TopLocations(t)| == Min(5, |GroupBy(t, Location)|)
    ensures Ranked(TopLocations(t))
    ensures forall i, j :: 0 <= i < j < |TopLocations(t)| ==>
              TopLocations(t)[i].retention >= TopLocations(t)[j].retention
    ensures forall g :: g in TopLocations(t) ==>
              Select(t, Location, g.key) != [] && g == StatOf(t, Location, g.key)
    ensures forall g, i :: g in GroupBy(t, Location) && g !in TopLocations(t) && 0 <= i < |TopLocations(t)| ==>
              g.retention <= TopLocations(t)[i].retention
    ensures forall g, i :: g in GroupBy(t, Location) && g !in TopLocations(t) && 0 <= i < |TopLocations(t)| ==>
              RankedBefore(TopLocations(t)[i], g)
  {
    var gs := GroupBy(t, Location);
    NLargestProperties(gs, 5);
    forall g | g in TopLocations(t)
      ensures Select(t, Location, g.key) != [] && g == StatOf(t, Location, g.key)
    {
      var i :| 0 <= i < |gs| && gs[i] == g;
    }
  }

  /** `df.groupby('feature_version').agg(mean)`: the retention of the group
      of version `v`, times 100, is `FeatureRetention(t, v)`, the filtered
      mean the A/B block computes. */
  lemma FeatureMetricsMatchAB(t: seq<Record>)
    ensures forall i, v :: 0 <= i < |GroupBy(t, FeatureVersion)| && GroupBy(t, FeatureVersion)[i].key == Text(v) ==>
              FeatureRetention(t, v) == Some(GroupBy(t, FeatureVersion)[i].retention * 100.0)
  {
    forall i, v | 0 <= i < |GroupBy(t, FeatureVersion)| && GroupBy(t, FeatureVersion)[i].key == Text(v)
      ensures FeatureRetention(t, v) == Some(GroupBy(t, FeatureVersion)[i].retention * 100.0)
    {
      FeatureGroupRate(t, i, v);
    }
  }

  lemma FeatureGroupRate(t: seq<Record>, i: nat, v: string)
    requires i < |GroupBy(t, FeatureVersion)| && GroupBy(t, FeatureVersion)[i].key == Text(v)
    ensures FeatureRetention(t, v) == Some(GroupBy(t, FeatureVersion)[i].retention * 100.0)
  {
    GroupRateIsFilterRate(t, FeatureVersion, i);
  }

  /** `df.groupby('gender')['retention_flag'].mean()`: one group per gender
      present, each rate in [0, 1] for 0/1 flags and of the group's own rows. */
  lemma GenderRetentionRates(t: seq<Record>)
    requires BinaryFlags(t)
    ensures forall i :: 0 <= i < |GroupBy(t, Gender)| ==>
              0.0 <= GroupBy(t, Gender)[i].retention <= 1.0
              && GroupBy(t, Gender)[i].size == Count(t, KeyIs(Gender, GroupBy(t, Gender)[i].key)) > 0
    ensures forall r :: r in t ==> exists i :: 0 <= i < |GroupBy(t, Gender)| && GroupBy(t, Gender)[i].key == Text(r.gender)
  {
    GroupRetentionBounds(t, Gender);
    GroupSizesPartition(t, Gender);
  }

  // ------------------------------------------------------------ report tables

  /** One row of an HTML table: a key, its retention in percent, a row count. */
  datatype TableRow = TableRow(key: Key, ratePercent: real, rowCount: nat)

  /** The count a band label has in an `age_group` column. */
  function BandCount(c: seq<Option<string>>, k: Key): nat {
    match k
    case Text(s) => LabelCount(c, s)
    case Score(_) => 0
  }

  /** The age-group table: for each band of `age_retention`, its rate times
      100 and `df[df['age_group'] == age].shape[0]` counted on the column `c`.
      When `c` is the column the script added, each count is the size of the
      band's group, and the counts add up to the rows with a band. */
  function AgeRows(t: seq<Record>, c: seq<Option<string>>): (rows: seq<TableRow>)
    ensures |rows| == |GroupBy(t, AgeGroup)|
    ensures forall i :: 0 <= i < |rows| ==>
              rows[i].key == GroupBy(t, AgeGroup)[i].key
              && rows[i].ratePercent == GroupBy(t, AgeGroup)[i].retention * 100.0
    ensures c == AgeGroupColumn(t) ==>
              forall i :: 0 <= i < |rows| ==>
                rows[i].rowCount == GroupBy(t, AgeGroup)[i].size == Count(t, KeyIs(AgeGroup, rows[i].key)) > 0
  {
    var gs := GroupBy(t, AgeGroup);
    AgeBandCounts(t);
    seq(|gs|, i requires 0 <= i < |gs| => TableRow(gs[i].key, gs[i].retention * 100.0, BandCount(c, gs[i].key)))
  }

  lemma AgeBandCounts(t: seq<Record>)
    ensures forall i :: 0 <= i < |GroupBy(t, AgeGroup)| ==>
              BandCount(AgeGroupColumn(t), GroupBy(t, AgeGroup)[i].key)
              == GroupBy(t, AgeGroup)[i].size
              == Count(t, KeyIs(AgeGroup, GroupBy(t, AgeGroup)[i].key)) > 0
  {
    GroupSizesPartition(t, AgeGroup);
    forall i | 0 <= i < |GroupBy(t, AgeGroup)|
      ensures BandCount(AgeGroupColumn(t), GroupBy(t, AgeGroup)[i].key)
              == Count(t, KeyIs(AgeGroup, GroupBy(t, AgeGroup)[i].key))
    {
      AgeBandCount(t, GroupBy(t, AgeGroup)[i].key);
    }
  }

  lemma AgeBandCount(t: seq<Record>, k: Key)
    requires Select(t, AgeGroup, k) != []
    ensures BandCount(AgeGroupColumn(t), k) == Count(t, KeyIs(AgeGroup, k))
  {
    var s := Select(t, AgeGroup, k);
    assert s[0] in s;
    LabelCountIsBandCount(t, k.s);
  }

  /** The two segment rows and the at-risk row of the segment table
      (`len(...)` and `mean() * 100` of each segment). */
  datatype SegmentTable = SegmentTable(
    highCount: nat, highRate: Option<real>,
    lowCount: nat, lowRate: Option<real>,
    atRiskCount: nat)

  /** The segments are disjoint, and the at-risk rows are the low rows that
      were not retained: high + low <= rows, at-risk <= low. */
  function Segments(t: seq<Record>): (s: SegmentTable)
    ensures s.highCount + s.lowCount <= |t|
    ensures s.atRiskCount + Count(Filter(t, Low), Retained) <= s.lowCount
    ensures s.highRate.None? <==> s.highCount == 0
    ensures s.lowRate.None? <==> s.lowCount == 0
  {
    SegmentCountsBound(t);
    AtRiskBounds(t);
    SegmentTable(Count(t, High), RetentionRate(Filter(t, High)),
                 Count(t, Low), RetentionRate(Filter(t, Low)),
                 |AtRisk(t)|)
  }

  /** The location table: for each of the top locations, its rate times 100
      and `df[df['location'] == loc].shape[0]`, which is that group's size. */
  function LocationRows(t: seq<Record>): (rows: seq<TableRow>)
    ensures |rows| == |TopLocations(t)| <= 5
    ensures forall i :: 0 <= i < |rows| ==>
              rows[i].key == TopLocations(t)[i].key
              && rows[i].ratePercent == TopLocations(t)[i].retention * 100.0
              && rows[i].rowCount == TopLocations(t)[i].size > 0
  {
    var top := TopLocations(t);
    TopLocationsProperties(t);
    assert forall i :: 0 <= i < |top| ==> top[i] in top;
    seq(|top|, i requires 0 <= i < |top| =>
      TableRow(top[i].key, top[i].retention * 100.0, Count(t, KeyIs(Location, top[i].key))))
  }

  /** `network_performance['retention_flag'].idxmin()`, the network the
      recommendations name for improvement. */
  function WorstNetwork(t: seq<Record>): Option<Key> {
    WorstKey(GroupBy(t, Network))
  }

  /** The worst network is the first network with the lowest retention, and
      is present whenever the table has rows. */
  lemma WorstNetworkIsMinimal(t: seq<Record>)
    ensures WorstNetwork(t).None? <==> t == []
    ensures forall k :: WorstNetwork(t) == Some(k) <==> IsWorstKey(t, Network, k)
  {
    WorstKeyIsMinimal(t, Network);
    if t != [] {
      assert t[0] in t;
    }
  }

  // ------------------------------------------------------------ results

  /** The dictionary `optimized_complete_analysis` returns. */
  datatype AnalysisResults = AnalysisResults(
    featureARetention: Option<real>,
    featureBRetention: Option<real>,
    featureAdvantage: Option<real>,
    totalUsers: nat,
    retentionRate: Option<real>,
    bestNetwork: Option<Key>,
    bestDevice: Option<Key>,
    bestAgeGroup: Option<Key>,
    highEngagement: nat,
    lowEngagement: nat)

  /** The results of the analysis of the rows `t`. The advantage is the
      difference of the two version rates; there are at most as many users
      as rows; the best network and device exist exactly when there are
      rows, the best age group exactly when some age has a band; and the
      two segment counts add up to at most the number of rows. */
  function Results(t: seq<Record>): (res: AnalysisResults)
    ensures res.featureAdvantage == Difference(res.featureARetention, res.featureBRetention)
    ensures res.totalUsers <= |t| && (res.totalUsers > 0 <==> t != [])
    ensures res.retentionRate.None? <==> t == []
    ensures res.bestNetwork.None? <==> t == []
    ensures res.bestDevice.None? <==> t == []
    ensures res.bestAgeGroup.None? <==> forall r :: r in t ==> !(0 < r.age <= 100)
    ensures res.highEngagement + res.lowEngagement <= |t|
  {
    AlwaysKeyed(t, Network);
    AlwaysKeyed(t, Device);
    AgeGroupsPresent(t);
    SegmentCountsBound(t);
    AnalysisResults(
      FeatureRetention(t, "A"),
      FeatureRetention(t, "B"),
      FeatureAdvantage(t),
      TotalUsers(t),
      RetentionRate(t),
      BestKey(GroupBy(t, Network)),
      BestKey(GroupBy(t, Device)),
      BestKey(GroupBy(t, AgeGroup)),
      Count(t, High),
      Count(t, Low))
  }

  /** A column every row has a key in has groups exactly when there are rows. */
  lemma AlwaysKeyed(t: seq<Record>, col: Column)
    requires col == Network || col == Device
    ensures BestKey(GroupBy(t, col)).None? <==> t == []
  {
    NoGroupsIffNoKeys(t, col);
    if t != [] {
      assert t[0] in t;
    }
  }

  /** The age grouping has a band exactly when some age lies in (0, 100]. */
  lemma AgeGroupsPresent(t: seq<Record>)
    ensures BestKey(GroupBy(t, AgeGroup)).None? <==> forall r :: r in t ==> !(0 < r.age <= 100)
  {
    NoGroupsIffNoKeys(t, AgeGroup);
    forall r | r in t ensures KeyOf(AgeGroup, r).None? <==> !(0 < r.age <= 100) {
      AgeKeyPresent(r);
    }
  }

  lemma AgeKeyPresent(r: Record)
    ensures KeyOf(AgeGroup, r).None? <==> !(0 < r.age <= 100)
  {
    AgeGroupBands(r.age);
    assert KeyOf(AgeGroup, r).None? <==> AgeGroupLabel(r.age).None?;
  }

  /** The three best keys are the first maxima of their groupings, and the
      two counts are the sizes of the two segments. */
  lemma ResultsBestKeys(t: seq<Record>)
    ensures forall k :: Results(t).bestNetwork == Some(k) <==> IsBestKey(t, Network, k)
    ensures forall k :: Results(t).bestDevice == Some(k) <==> IsBestKey(t, Device, k)
    ensures forall k :: Results(t).bestAgeGroup == Some(k) <==> IsBestKey(t, AgeGroup, k)
    ensures Results(t).highEngagement == |Filter(t, High)| && Results(t).lowEngagement == |Filter(t, Low)|
  {
    BestKeyIsMaximal(t, Network);
    BestKeyIsMaximal(t, Device);
    BestKeyIsMaximal(t, AgeGroup);
  }

  /** With 0/1 flags every rate in the results is a percentage, and the
      advantage lies between -100 and 100. */
  lemma ResultsRatesBounded(t: seq<Record>)
    requires BinaryFlags(t)
    ensures Results(t).retentionRate.Some? ==> 0.0 <= Results(t).retentionRate.value <= 100.0
    ensures Results(t).featureARetention.Some? ==> 0.0 <= Results(t).featureARetention.value <= 100.0
    ensures Results(t).featureBRetention.Some? ==> 0.0 <= Results(t).featureBRetention.value <= 100.0
    ensures Results(t).featureAdvantage.Some? ==> -100.0 <= Results(t).featureAdvantage.value <= 100.0
  {
    if t != [] {
      RetentionRateIsRetainedShare(t);
    }
    FeatureRetentionShare(t, "A");
    FeatureRetentionShare(t, "B");
    FeatureAdvantageBounds(t);
  }

  /** `optimized_complete_analysis(df)`: computes the metrics in the order the
      script does, adding the `age_group` column to the caller's frame on the
      way, and returns the results of the frame's rows. */
  method OptimizedCompleteAnalysis(df: Frame) returns (res: AnalysisResults)
    modifies df
    ensures df.rows == old(df.rows)
    ensures df.AgeGroupAdded()
    ensures res == Results(df.rows)
  {
    var t := df.rows;
    var totalUsers := TotalUsers(t);
    var retentionRate := RetentionRate(t);
    var featureA := FeatureRetention(t, "A");
    var featureB := FeatureRetention(t, "B");
    var featureAdvantage := Difference(featureA, featureB);
    var bestNetwork := BestKey(GroupBy(t, Network));
    var bestDevice := BestKey(GroupBy(t, Device));
    var high := Filter(t, High);
    var low := Filter(t, Low);
    df.AddAgeGroup();
    var bestAgeGroup := BestKey(GroupBy(df.rows, AgeGroup));
    res := AnalysisResults(featureA, featureB, featureAdvantage, totalUsers, retentionRate,
                           bestNetwork, bestDevice, bestAgeGroup, |high|, |low|);
  }
}
