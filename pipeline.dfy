/**
  The two halves together: what the report computations yield on a table the
  generator writes, and that the two report scripts agree on every value
  their returned dictionaries share.
 */
module Pipeline {
  import opened EngagementTypes
  import opened Aggregation
  import opened Metrics
  import opened GenerateData
  import RunAnalysis
  import GenerateReport

  /** The ids 0, 1, ..., n - 1. */
  function IdRange(n: nat): (s: set<int>)
    ensures |s| == n
    ensures forall i :: i in s <==> 0 <= i < n
  {
    if n == 0 then {}
    else
      var rest := IdRange(n - 1);
      assert n - 1 !in rest;
      rest + {n - 1}
  }

  /** The generated user ids are exactly 0..2999, so `nunique()` is 3000. */
  lemma GeneratedUserIds(data: seq<Record>)
    requires GeneratedShape(data)
    ensures UserIds(data) == IdRange(NumUsers)
    ensures TotalUsers(data) == NumUsers
  {
    forall id | id in UserIds(data) ensures 0 <= id < NumUsers {
      var r :| r in data && r.userId == id;
      var k :| 0 <= k < |data| && data[k] == r;
    }
    forall id | 0 <= id < NumUsers ensures id in UserIds(data) {
      var k := id * NumDays;
      assert k / NumDays == id by {
        assert id * 30 == k;
      }
      assert data[k] in data;
    }
  }

  /** Every generated retention flag is 0 or 1. */
  lemma GeneratedFlagsBinary(data: seq<Record>)
    requires GeneratedShape(data)
    ensures BinaryFlags(data)
  {
    forall r | r in data ensures r.retentionFlag == 0 || r.retentionFlag == 1 {
      var k :| 0 <= k < |data| && data[k] == r;
    }
  }

  /** On generated data the KPIs are 3000 users, a retention percentage, an
      average session of at least 30 s and a non-negative average click count. */
  lemma GeneratedKpis(data: seq<Record>)
    requires GeneratedShape(data)
    ensures GenerateReport.KpisOf(data).totalUsers == NumUsers
    ensures 0.0 <= GenerateReport.KpisOf(data).retentionRate.value <= 100.0
    ensures GenerateReport.KpisOf(data).avgSession.value >= 30.0
    ensures GenerateReport.KpisOf(data).avgClicks.value >= 0.0
  {
    GeneratedUserIds(data);
    GeneratedFlagsBinary(data);
    forall r | r in data ensures r.sessionDuration >= 30 && r.clicks >= 0 {
      var k :| 0 <= k < |data| && data[k] == r;
    }
    GenerateReport.KpiBounds(data);
  }

  lemma {:induction false} CountAll(t: seq<Record>, c: Condition)
    requires forall i :: 0 <= i < |t| ==> Holds(c, t[i])
    ensures Count(t, c) == |t|
  {
    if t != [] {
      assert forall i :: 0 <= i < |t[1..]| ==> t[1..][i] == t[i + 1];
      CountAll(t[1..], c);
    }
  }

  lemma GeneratedAges(data: seq<Record>)
    requires GeneratedShape(data)
    ensures |data| == NumUsers * NumDays
    ensures forall i :: 0 <= i < |data| ==> 18 <= data[i].age <= 64
  {
  }

  lemma AgeHasBand(r: Record)
    requires 18 <= r.age <= 64
    ensures Holds(HasKey(AgeGroup), r)
  {
    AgeGroupBands(r.age);
    assert AgeGroupLabel(r.age).Some?;
  }

  /** Every generated age (18..64) has a band, so the age groups partition
      all 90000 rows. */
  lemma GeneratedAgeGroupsPartition(data: seq<Record>)
    requires GeneratedShape(data)
    ensures Count(data, HasKey(AgeGroup)) == |data|
    ensures SumSizes(GroupBy(data, AgeGroup)) == NumUsers * NumDays
  {
    GeneratedAges(data);
    forall i | 0 <= i < |data| ensures Holds(HasKey(AgeGroup), data[i]) {
      AgeHasBand(data[i]);
    }
    CountAll(data, HasKey(AgeGroup));
    GroupSizesPartition(data, AgeGroup);
  }

  /** The results of run_analysis.py on generated data: 3000 users and a
      retention percentage. */
  lemma GeneratedResults(data: seq<Record>)
    requires GeneratedShape(data)
    ensures RunAnalysis.Results(data).totalUsers == NumUsers
    ensures 0.0 <= RunAnalysis.Results(data).retentionRate.value <= 100.0
  {
    GeneratedUserIds(data);
    GeneratedFlagsBinary(data);
    ResultsOfUsers(data);
  }

  lemma ResultsOfUsers(t: seq<Record>)
    requires BinaryFlags(t) && TotalUsers(t) == NumUsers
    ensures RunAnalysis.Results(t).totalUsers == NumUsers
    ensures 0.0 <= RunAnalysis.Results(t).retentionRate.value <= 100.0
  {
    RunAnalysis.ResultsRatesBounded(t);
  }

  /** On generated data run_analysis.py finds a best network, device and age
      group, and the engagement segments fit in the 90000 rows. */
  lemma GeneratedBestKeys(data: seq<Record>)
    requires GeneratedShape(data)
    ensures RunAnalysis.Results(data).bestNetwork.Some?
    ensures RunAnalysis.Results(data).bestDevice.Some?
    ensures RunAnalysis.Results(data).bestAgeGroup.Some?
    ensures RunAnalysis.Results(data).highEngagement + RunAnalysis.Results(data).lowEngagement <= NumUsers * NumDays
  {
    GeneratedAges(data);
    FirstRowBanded(data);
  }

  lemma FirstRowBanded(data: seq<Record>)
    requires |data| > 0 && 18 <= data[0].age <= 64
    ensures exists r :: r in data && 0 < r.age <= 100
  {
    assert data[0] in data;
  }

  /** The two scripts' returned dictionaries agree on every key they share,
      for any table. */
  lemma ScriptsAgree(t: seq<Record>)
    ensures GenerateReport.ReportResultsOf(t).featureARetention == RunAnalysis.Results(t).featureARetention
    ensures GenerateReport.ReportResultsOf(t).featureBRetention == RunAnalysis.Results(t).featureBRetention
    ensures GenerateReport.ReportResultsOf(t).featureAdvantage == RunAnalysis.Results(t).featureAdvantage
    ensures GenerateReport.ReportResultsOf(t).bestNetwork == RunAnalysis.Results(t).bestNetwork
    ensures GenerateReport.ReportResultsOf(t).bestDevice == RunAnalysis.Results(t).bestDevice
    ensures GenerateReport.ReportResultsOf(t).highEngagementUsers == RunAnalysis.Results(t).highEngagement
    ensures GenerateReport.ReportResultsOf(t).lowEngagementUsers == RunAnalysis.Results(t).lowEngagement
  {
  }
}
