/**
  The table aggregation that both report scripts perform, as pure functions
  over the rows of the table: segment predicates, right-closed age buckets,
  filtered counts, exact means (None where pandas gives NaN), group-wise
  means with sorted group keys, argmax/argmin over groups, and the ranking
  behind `nlargest` and `sort_values`.
 */
module Aggregation {
  import opened EngagementTypes

  // ------------------------------------------------------------ segments

  predicate IsHigh(r: Record) { r.clicks >= 5 && r.sessionDuration >= 300 }

  predicate IsLow(r: Record) { r.clicks < 3 || r.sessionDuration < 150 }

  /** No row is in both engagement segments; clicks and duration alone decide. */
  lemma SegmentsDisjoint(r: Record)
    ensures !(IsHigh(r) && IsLow(r))
    ensures IsHigh(r) ==> r.clicks >= 5 && r.sessionDuration >= 300
    ensures !IsLow(r) <==> r.clicks >= 3 && r.sessionDuration >= 150
  {
  }

  /** The OR in the low segment: clicks=1 with a 400 s session is low, and
      clicks=6 with a 310 s session is high and not low. */
  lemma SegmentBoundaries(r: Record)
    ensures r.clicks == 1 && r.sessionDuration == 400 ==> IsLow(r) && !IsHigh(r)
    ensures r.clicks == 6 && r.sessionDuration == 310 ==> IsHigh(r) && !IsLow(r)
    ensures r.clicks == 5 && r.sessionDuration == 300 ==> IsHigh(r)
    ensures r.clicks == 3 && r.sessionDuration == 150 ==> !IsLow(r) && !IsHigh(r)
  {
  }

  // ------------------------------------------------------------ age buckets

  const AgeBins: seq<int> := [0, 25, 35, 45, 55, 100]
  const AgeLabels: seq<string> := ["18-25", "26-35", "36-45", "46-55", "55+"]

  /** The band labels in string order are the category order pandas gives
      them, so sorting age-group keys by string sorts them as categories. */
  lemma AgeLabelsInCategoryOrder()
    ensures forall i, j :: 0 <= i < j < |AgeLabels| ==> StrLess(AgeLabels[i], AgeLabels[j])
  {
  }

  /** pandas `cut` with the default right=True: label i for bins[i] < x <= bins[i+1];
      None (NaN) outside (bins[0], last bin]. */
  function Cut(x: int, bins: seq<int>, labels: seq<string>): (c: Option<string>)
    requires |bins| == |labels| + 1
    ensures c.Some? ==> exists j :: 0 <= j < |labels| && c.value == labels[j] && bins[j] < x <= bins[j + 1]
  {
    if labels == [] then None
    else if bins[0] < x <= bins[1] then Some(labels[0])
    else Cut(x, bins[1..], labels[1..])
  }

  predicate Increasing(bins: seq<int>) {
    forall i, j :: 0 <= i < j < |bins| ==> bins[i] < bins[j]
  }

  predicate Distinct<T(==)>(xs: seq<T>) {
    forall i, j :: 0 <= i < j < |xs| ==> xs[i] != xs[j]
  }

  /** Each bucket is the right-closed interval (bins[i], bins[i+1]]. */
  lemma {:induction false} CutRightClosed(x: int, bins: seq<int>, labels: seq<string>, i: nat)
    requires |bins| == |labels| + 1 && Increasing(bins) && Distinct(labels) && i < |labels|
    ensures Cut(x, bins, labels) == Some(labels[i]) <==> bins[i] < x <= bins[i + 1]
  {
    if bins[i] < x <= bins[i + 1] {
      CutFindsBucket(x, bins, labels, i);
    }
    if Cut(x, bins, labels) == Some(labels[i]) {
      var j :| 0 <= j < |labels| && labels[i] == labels[j] && bins[j] < x <= bins[j + 1];
      assert j == i;
    }
  }

  lemma {:induction false} CutFindsBucket(x: int, bins: seq<int>, labels: seq<string>, i: nat)
    requires |bins| == |labels| + 1 && Increasing(bins) && i < |labels|
    requires bins[i] < x <= bins[i + 1]
    ensures Cut(x, bins, labels) == Some(labels[i])
  {
    if i > 0 {
      assert bins[1] <= bins[i];
      CutFindsBucket(x, bins[1..], labels[1..], i - 1);
    }
  }

  /** Values at or below the first edge or above the last get no bucket. */
  lemma {:induction false} CutOutside(x: int, bins: seq<int>, labels: seq<string>)
    requires |bins| == |labels| + 1 && Increasing(bins)
    requires x <= bins[0] || x > bins[|bins| - 1]
    ensures Cut(x, bins, labels) == None
  {
    if labels != [] {
      assert bins[1] <= bins[|bins| - 1];
      CutOutside(x, bins[1..], labels[1..]);
    }
  }

  function AgeGroupLabel(age: int): Option<string> {
    Cut(age, AgeBins, AgeLabels)
  }

  lemma AgeBinsIncreasing()
    ensures Increasing(AgeBins) && Distinct(AgeLabels)
  {
  }

  /** The five right-closed bands, and no band at or below 0 or above 100. */
  lemma AgeGroupBands(age: int)
    ensures AgeGroupLabel(age) == Some("18-25") <==> 0 < age <= 25
    ensures AgeGroupLabel(age) == Some("26-35") <==> 25 < age <= 35
    ensures AgeGroupLabel(age) == Some("36-45") <==> 35 < age <= 45
    ensures AgeGroupLabel(age) == Some("46-55") <==> 45 < age <= 55
    ensures AgeGroupLabel(age) == Some("55+") <==> 55 < age <= 100
    ensures AgeGroupLabel(age) == None <==> age <= 0 || age > 100
  {
    AgeBinsIncreasing();
    CutRightClosed(age, AgeBins, AgeLabels, 0);
    CutRightClosed(age, AgeBins, AgeLabels, 1);
    CutRightClosed(age, AgeBins, AgeLabels, 2);
    CutRightClosed(age, AgeBins, AgeLabels, 3);
    CutRightClosed(age, AgeBins, AgeLabels, 4);
    if age <= 0 || age > 100 {
      CutOutside(age, AgeBins, AgeLabels);
    }
  }

  /** The edges belong to the band below them: 25 is '18-25', 55 is '46-55',
      56 is '55+'; every age the generator produces (18..64) has a band. */
  lemma AgeGroupEdges(age: int)
    ensures AgeGroupLabel(25) == Some("18-25") && AgeGroupLabel(55) == Some("46-55")
    ensures AgeGroupLabel(56) == Some("55+")
    ensures 18 <= age <= 64 ==> AgeGroupLabel(age).Some?
  {
    AgeGroupBands(25);
    AgeGroupBands(55);
    AgeGroupBands(56);
    AgeGroupBands(age);
  }

  // ------------------------------------------------------------ group keys

  /** Python's string order: lexicographic by code point. */
  predicate StrLess(a: string, b: string)
    decreases |a|
  {
    if a == [] then b != []
    else if b == [] then false
    else if a[0] != b[0] then a[0] < b[0]
    else StrLess(a[1..], b[1..])
  }

  lemma {:induction false} StrLessIrreflexive(a: string)
    ensures !StrLess(a, a)
    decreases |a|
  {
    if a != [] {
      StrLessIrreflexive(a[1..]);
    }
  }

  lemma {:induction false} StrLessTransitive(a: string, b: string, c: string)
    requires StrLess(a, b) && StrLess(b, c)
    ensures StrLess(a, c)
    decreases |a|
  {
    if a != [] && a[0] == b[0] && b[0] == c[0] {
      StrLessTransitive(a[1..], b[1..], c[1..]);
    }
  }

  lemma {:induction false} StrLessTotal(a: string, b: string)
    requires a != b
    ensures StrLess(a, b) || StrLess(b, a)
    decreases |a|
  {
    if a != [] && b != [] && a[0] == b[0] {
      assert a == [a[0]] + a[1..] && b == [b[0]] + b[1..];
      StrLessTotal(a[1..], b[1..]);
    }
  }

  /** The key of a group: a text label, or a feedback score. */
  datatype Key = Text(s: string) | Score(n: int)

  /** Sorted order of group keys (the two kinds never share a column). */
  predicate KeyLess(a: Key, b: Key) {
    match (a, b)
    case (Text(x), Text(y)) => StrLess(x, y)
    case (Score(x), Score(y)) => x < y
    case (Score(_), Text(_)) => true
    case (Text(_), Score(_)) => false
  }

  lemma KeyLessIrreflexive(a: Key)
    ensures !KeyLess(a, a)
  {
    if a.Text? { StrLessIrreflexive(a.s); }
  }

  lemma KeyLessTransitive(a: Key, b: Key, c: Key)
    requires KeyLess(a, b) && KeyLess(b, c)
    ensures KeyLess(a, c)
  {
    if a.Text? && b.Text? && c.Text? { StrLessTransitive(a.s, b.s, c.s); }
  }

  lemma KeyLessTotal(a: Key, b: Key)
    requires a != b
    ensures KeyLess(a, b) || KeyLess(b, a)
  {
    if a.Text? && b.Text? { StrLessTotal(a.s, b.s); }
  }

  predicate StrictlySorted(ks: seq<Key>) {
    forall i, j :: 0 <= i < j < |ks| ==> KeyLess(ks[i], ks[j])
  }

  lemma BelowFirstIsBelowAll(k: Key, ks: seq<Key>)
    requires StrictlySorted(ks) && |ks| > 0 && KeyLess(k, ks[0])
    ensures forall j :: 0 <= j < |ks| ==> KeyLess(k, ks[j])
  {
    forall j | 0 < j < |ks| ensures KeyLess(k, ks[j]) {
      KeyLessTransitive(k, ks[0], ks[j]);
    }
  }

  /** Inserting a key into a sorted key list, keeping it sorted and duplicate-free. */
  function InsertKey(k: Key, ks: seq<Key>): (r: seq<Key>)
    requires StrictlySorted(ks)
    ensures StrictlySorted(r)
    ensures forall x :: x in r <==> x == k || x in ks
  {
    if ks == [] then [k]
    else if k == ks[0] then ks
    else if KeyLess(k, ks[0]) then BelowFirstIsBelowAll(k, ks); [k] + ks
    else
      KeyLessTotal(k, ks[0]);
      var rest := InsertKey(k, ks[1..]);
      assert forall y :: y in rest ==> KeyLess(ks[0], y);
      PrependSorted(ks[0], rest);
      [ks[0]] + rest
  }

  lemma PrependSorted(x: Key, s: seq<Key>)
    requires StrictlySorted(s) && forall y :: y in s ==> KeyLess(x, y)
    ensures StrictlySorted([x] + s)
  {
    var r := [x] + s;
    forall i, j | 0 <= i < j < |r| ensures KeyLess(r[i], r[j]) {
      if i == 0 { assert r[j] == s[j - 1]; assert r[j] in s; }
      else { assert r[i] == s[i - 1] && r[j] == s[j - 1]; }
    }
  }

  // ------------------------------------------------------------ columns

  /** A column that rows are grouped by. */
  datatype Column = Network | Device | Gender | Location | FeatureVersion | AgeGroup | FeedbackScore

  /** The key of a row in a column; None is a missing key (a NaN score, an age
      outside the buckets), which `groupby` leaves out. */
  function KeyOf(col: Column, r: Record): Option<Key> {
    match col
    case Network => Some(Text(r.network))
    case Device => Some(Text(r.device))
    case Gender => Some(Text(r.gender))
    case Location => Some(Text(r.location))
    case FeatureVersion => Some(Text(r.featureVersion))
    case AgeGroup =>
      (match AgeGroupLabel(r.age) case Some(l) => Some(Text(l)) case None => None)
    case FeedbackScore =>
      (match r.feedbackScore case Some(n) => Some(Score(n)) case None => None)
  }

  // ------------------------------------------------------------ filters

  /** A boolean mask over rows. */
  datatype Condition =
    | High
    | Low
    | NotRetained
    | Retained
    | HasKey(col: Column)
    | KeyIs(col: Column, key: Key)

  predicate Holds(c: Condition, r: Record) {
    match c
    case High => IsHigh(r)
    case Low => IsLow(r)
    case NotRetained => r.retentionFlag == 0
    case Retained => r.retentionFlag == 1
    case HasKey(col) => KeyOf(col, r).Some?
    case KeyIs(col, k) => KeyOf(col, r) == Some(k)
  }

  /** `df[mask]`: the rows that satisfy the condition, in table order. */
  function Filter(t: seq<Record>, c: Condition): (s: seq<Record>)
    ensures |s| <= |t|
    ensures forall r {:trigger r in s} :: r in s <==> r in t && Holds(c, r)
  {
    if t == [] then []
    else (if Holds(c, t[0]) then [t[0]] else []) + Filter(t[1..], c)
  }

  /** A filter is empty exactly when no row satisfies its condition. */
  lemma FilterEmpty(t: seq<Record>, c: Condition)
    ensures Filter(t, c) == [] <==> forall r :: r in t ==> !Holds(c, r)
  {
    var s := Filter(t, c);
    if s != [] {
      assert s[0] in s;
    } else {
      forall r | r in t ensures !Holds(c, r) {
        assert r in s <==> Holds(c, r);
      }
    }
  }

  /** A mask keeps the order and the multiplicity of the rows it selects:
      masking a concatenation masks each part (and a single row is kept
      exactly when it satisfies the condition, `FilterSingle`). */
  lemma {:induction false} FilterAppend(a: seq<Record>, b: seq<Record>, c: Condition)
    ensures Filter(a + b, c) == Filter(a, c) + Filter(b, c)
  {
    if a == [] {
      assert a + b == b;
    } else {
      var h := if Holds(c, a[0]) then [a[0]] else [];
      assert (a + b)[0] == a[0];
      assert (a + b)[1..] == a[1..] + b;
      FilterAppend(a[1..], b, c);
      calc {
        Filter(a + b, c);
        h + Filter(a[1..] + b, c);
        h + (Filter(a[1..], c) + Filter(b, c));
        (h + Filter(a[1..], c)) + Filter(b, c);
        Filter(a, c) + Filter(b, c);
      }
    }
  }

  lemma FilterSingle(r: Record, c: Condition)
    ensures Filter([r], c) == if Holds(c, r) then [r] else []
  {
    assert [r][1..] == [];
  }

  /** `len(df[mask])`. */
  function Count(t: seq<Record>, c: Condition): nat {
    |Filter(t, c)|
  }

  /** When the inner condition implies the outer one, filtering by the outer
      mask first and then by the inner one is filtering by the inner one alone. */
  lemma {:induction false} FilterNested(t: seq<Record>, outer: Condition, inner: Condition)
    requires forall r :: Holds(inner, r) ==> Holds(outer, r)
    ensures Filter(Filter(t, outer), inner) == Filter(t, inner)
  {
    if t != [] {
      FilterNested(t[1..], outer, inner);
      var rest := Filter(t[1..], outer);
      if Holds(outer, t[0]) {
        var f := [t[0]] + rest;
        assert Filter(t, outer) == f;
        assert f[0] == t[0] && f[1..] == rest;
        assert Filter(f, inner) == (if Holds(inner, t[0]) then [t[0]] else []) + Filter(rest, inner);
      } else {
        assert !Holds(inner, t[0]);
        assert Filter(t, outer) == rest;
      }
    }
  }

  /** The at-risk rows in the source's form: the low-engagement rows, then those
      of them with retention flag 0. */
  function AtRisk(t: seq<Record>): seq<Record> {
    Filter(Filter(t, Low), NotRetained)
  }

  /** At-risk rows are exactly the low-engagement rows that were not retained,
      so at-risk count <= low count <= number of rows. */
  lemma AtRiskBounds(t: seq<Record>)
    ensures forall r :: r in AtRisk(t) <==> r in t && IsLow(r) && r.retentionFlag == 0
    ensures |AtRisk(t)| + |Filter(Filter(t, Low), Retained)| <= Count(t, Low)
    ensures |AtRisk(t)| <= Count(t, Low) <= |t|
  {
    FilterSplitUpper(Filter(t, Low));
  }

  lemma {:induction false} FilterSplitUpper(s: seq<Record>)
    ensures |Filter(s, NotRetained)| + |Filter(s, Retained)| <= |s|
  {
    if s != [] {
      FilterSplitUpper(s[1..]);
    }
  }

  // ------------------------------------------------------------ means

  datatype Measure = Retention | Duration | Clicks

  function ValueOf(m: Measure, r: Record): int {
    match m
    case Retention => r.retentionFlag
    case Duration => r.sessionDuration
    case Clicks => r.clicks
  }

  function SumOf(t: seq<Record>, m: Measure): int {
    if t == [] then 0 else ValueOf(m, t[0]) + SumOf(t[1..], m)
  }

  /** The mean of a column over some rows; NaN (None) when there are none. */
  function Mean(t: seq<Record>, m: Measure): (r: Option<real>)
    ensures r.None? <==> t == []
  {
    if t == [] then None else Some(SumOf(t, m) as real / |t| as real)
  }

  /** Every row's retention flag is 0 or 1, as the generator writes it. */
  predicate BinaryFlags(t: seq<Record>) {
    forall r :: r in t ==> r.retentionFlag == 0 || r.retentionFlag == 1
  }

  /** With 0/1 flags, the sum of the flags is the number of retained rows. */
  lemma {:induction false} SumOfFlags(t: seq<Record>)
    requires BinaryFlags(t)
    ensures SumOf(t, Retention) == Count(t, Retained)
  {
    if t != [] {
      SumOfFlags(t[1..]);
    }
  }

  lemma FractionBounds(a: int, n: int)
    requires 0 <= a <= n && n > 0
    ensures 0.0 <= a as real / n as real <= 1.0
  {
    assert a as real / n as real * n as real == a as real;
  }

  /** `mean() * 100`, keeping NaN. */
  function Percent(x: Option<real>): Option<real> {
    match x case Some(v) => Some(v * 100.0) case None => None
  }

  /** Difference of two means; NaN if either is NaN. */
  function Difference(a: Option<real>, b: Option<real>): (d: Option<real>)
    ensures d.Some? <==> a.Some? && b.Some?
    ensures d.Some? ==> d.value + b.value == a.value
  {
    if a.Some? && b.Some? then Some(a.value - b.value) else None
  }

  /** `df['retention_flag'].mean() * 100`; NaN for no rows. */
  function RetentionRate(t: seq<Record>): (p: Option<real>)
    ensures p.None? <==> t == []
  {
    Percent(Mean(t, Retention))
  }

  lemma PercentBounds(a: int, n: int)
    requires 0 <= a <= n && n > 0
    ensures 0.0 <= a as real / n as real * 100.0 <= 100.0
  {
    FractionBounds(a, n);
  }

  /** With 0/1 flags the retention rate is 100 * (retained rows) / (rows), in [0, 100]. */
  lemma RetentionRateIsRetainedShare(t: seq<Record>)
    requires BinaryFlags(t) && t != []
    ensures RetentionRate(t) == Some(Count(t, Retained) as real / |t| as real * 100.0)
    ensures 0.0 <= RetentionRate(t).value <= 100.0
  {
    SumOfFlags(t);
    PercentBounds(Count(t, Retained), |t|);
  }

  /** The scores present in the rows, in table order: missing scores are skipped. */
  function Scores(t: seq<Record>): (s: seq<int>)
    ensures |s| == Count(t, HasKey(FeedbackScore))
  {
    if t == [] then []
    else (match t[0].feedbackScore case Some(n) => [n] case None => []) + Scores(t[1..])
  }

  function SumInts(xs: seq<int>): int {
    if xs == [] then 0 else xs[0] + SumInts(xs[1..])
  }

  /** `df['feedback_score'].mean()`: the mean of the present scores; NaN when
      no row has one. */
  function AvgFeedback(t: seq<Record>): (r: Option<real>)
    ensures r.None? <==> Count(t, HasKey(FeedbackScore)) == 0
  {
    var s := Scores(t);
    if s == [] then None else Some(SumInts(s) as real / |s| as real)
  }

  /** Rows without a score do not change the average feedback. */
  lemma {:induction false} AvgFeedbackIgnoresMissing(t: seq<Record>)
    ensures Scores(Filter(t, HasKey(FeedbackScore))) == Scores(t)
    ensures AvgFeedback(Filter(t, HasKey(FeedbackScore))) == AvgFeedback(t)
  {
    if t != [] {
      AvgFeedbackIgnoresMissing(t[1..]);
      var rest := Filter(t[1..], HasKey(FeedbackScore));
      if t[0].feedbackScore.Some? {
        var f := [t[0]] + rest;
        assert Filter(t, HasKey(FeedbackScore)) == f;
        assert f[0] == t[0] && f[1..] == rest;
        assert Scores(f) == [t[0].feedbackScore.value] + Scores(rest);
      } else {
        assert Filter(t, HasKey(FeedbackScore)) == rest;
      }
    }
  }

  // ------------------------------------------------------------ distinct users

  function UserIds(t: seq<Record>): set<int> {
    set r | r in t :: r.userId
  }

  /** `nunique()` on user_id: at most one per row, at least one if any row. */
  function TotalUsers(t: seq<Record>): (n: nat)
    ensures n <= |t|
    ensures n > 0 <==> |t| > 0
  {
    UserIdsBound(t);
    |UserIds(t)|
  }

  lemma {:induction false} UserIdsBound(t: seq<Record>)
    ensures |UserIds(t)| <= |t|
    ensures |t| > 0 ==> t[0].userId in UserIds(t)
  {
    if t != [] {
      UserIdsBound(t[1..]);
      assert UserIds(t) == {t[0].userId} + UserIds(t[1..]);
    }
  }

  // ------------------------------------------------------------ groupby

  /** The distinct keys present in a column, in sorted order (`groupby`
      sorts its keys and drops missing ones). */
  function Keys(t: seq<Record>, col: Column): (ks: seq<Key>)
    ensures StrictlySorted(ks)
    ensures forall k :: k in ks <==> exists r :: r in t && KeyOf(col, r) == Some(k)
  {
    if t == [] then []
    else
      assert forall r :: r in t <==> r == t[0] || r in t[1..];
      match KeyOf(col, t[0])
      case None => Keys(t[1..], col)
      case Some(k) => InsertKey(k, Keys(t[1..], col))
  }

  /** The rows of one group. */
  function Select(t: seq<Record>, col: Column, k: Key): seq<Record> {
    Filter(t, KeyIs(col, k))
  }

  /** One row of a `groupby(...).agg(mean)` result. */
  datatype GroupStat = GroupStat(key: Key, size: nat, retention: real, duration: real, clicks: real)

  function MeanOf(t: seq<Record>, m: Measure): real
    requires t != []
  {
    SumOf(t, m) as real / |t| as real
  }

  /** The aggregate of group `k`: its size (`df[df[col] == k].shape[0]`) and
      the exact means of retention, duration and clicks over its rows. */
  function StatOf(t: seq<Record>, col: Column, k: Key): GroupStat
    requires Select(t, col, k) != []
  {
    var g := Select(t, col, k);
    GroupStat(k, |g|, MeanOf(g, Retention), MeanOf(g, Duration), MeanOf(g, Clicks))
  }

  predicate KeysSorted(gs: seq<GroupStat>) {
    forall i, j :: 0 <= i < j < |gs| ==> KeyLess(gs[i].key, gs[j].key)
  }

  /** `g` is the aggregate of the rows with its key, and there are such rows. */
  predicate IsGroupOf(t: seq<Record>, col: Column, g: GroupStat) {
    Select(t, col, g.key) != [] && g == StatOf(t, col, g.key)
  }

  /** A present key has rows. */
  lemma KeyHasRows(t: seq<Record>, col: Column, k: Key)
    requires k in Keys(t, col)
    ensures Select(t, col, k) != []
  {
    var r :| r in t && KeyOf(col, r) == Some(k);
    assert r in Select(t, col, k);
  }

  /** `df.groupby(col).agg(mean)`: one entry per present key, in key order. */
  function GroupBy(t: seq<Record>, col: Column): (gs: seq<GroupStat>)
    ensures |gs| == |Keys(t, col)| && KeysSorted(gs)
    ensures forall i :: 0 <= i < |gs| ==> gs[i].key == Keys(t, col)[i]
    ensures forall i :: 0 <= i < |gs| ==> IsGroupOf(t, col, gs[i])
  {
    var ks := Keys(t, col);
    forall i | 0 <= i < |ks| ensures Select(t, col, ks[i]) != [] {
      KeyHasRows(t, col, ks[i]);
    }
    seq(|ks|, i requires 0 <= i < |ks| => StatOf(t, col, ks[i]))
  }

  /** Every row that has a key falls in some group. */
  lemma GroupByCovers(t: seq<Record>, col: Column)
    ensures forall r :: r in t && KeyOf(col, r).Some? ==>
              exists i :: 0 <= i < |GroupBy(t, col)| && GroupBy(t, col)[i].key == KeyOf(col, r).value
  {
    var ks := Keys(t, col);
    forall r | r in t && KeyOf(col, r).Some?
      ensures exists i :: 0 <= i < |GroupBy(t, col)| && GroupBy(t, col)[i].key == KeyOf(col, r).value
    {
      var k := KeyOf(col, r).value;
      assert k in ks;
      var i :| 0 <= i < |ks| && ks[i] == k;
      assert GroupBy(t, col)[i].key == k;
    }
  }

  /** `groupby` drops rows whose key is missing: grouping the rows that have a
      key gives the same groups. */
  lemma GroupByIgnoresMissingKeys(t: seq<Record>, col: Column)
    ensures GroupBy(Filter(t, HasKey(col)), col) == GroupBy(t, col)
  {
    var f := Filter(t, HasKey(col));
    KeysIgnoreMissing(t, col);
    var g1, g2 := GroupBy(f, col), GroupBy(t, col);
    forall i | 0 <= i < |g1| ensures g1[i] == g2[i] {
      var k := g1[i].key;
      assert k == g2[i].key;
      SelectIgnoresMissing(t, col, k);
    }
  }

  lemma SelectIgnoresMissing(t: seq<Record>, col: Column, k: Key)
    ensures Select(Filter(t, HasKey(col)), col, k) == Select(t, col, k)
  {
    assert forall r :: Holds(KeyIs(col, k), r) ==> Holds(HasKey(col), r);
    FilterNested(t, HasKey(col), KeyIs(col, k));
  }

  lemma KeysIgnoreMissing(t: seq<Record>, col: Column)
    ensures Keys(Filter(t, HasKey(col)), col) == Keys(t, col)
  {
    var f := Filter(t, HasKey(col));
    forall k ensures k in Keys(f, col) <==> k in Keys(t, col) {
      KeyPresentIgnoresMissing(t, col, k);
    }
    SortedUnique(Keys(f, col), Keys(t, col));
  }

  lemma KeyPresentIgnoresMissing(t: seq<Record>, col: Column, k: Key)
    ensures (exists r :: r in Filter(t, HasKey(col)) && KeyOf(col, r) == Some(k))
        <==> (exists r :: r in t && KeyOf(col, r) == Some(k))
  {
    if r :| r in t && KeyOf(col, r) == Some(k) {
      assert r in Filter(t, HasKey(col));
    }
  }

  /** Two strictly sorted key sequences with the same elements are equal. */
  lemma {:induction false} SortedUnique(a: seq<Key>, b: seq<Key>)
    requires StrictlySorted(a) && StrictlySorted(b)
    requires forall x :: x in a <==> x in b
    ensures a == b
  {
    assert a != [] ==> a[0] in b;
    assert b != [] ==> b[0] in a;
    if a != [] && b != [] {
      if a[0] != b[0] {
        assert a[0] in a && b[0] in b;
        var i :| 0 <= i < |a| && a[i] == b[0];
        var j :| 0 <= j < |b| && b[j] == a[0];
        KeyLessTransitive(a[0], b[0], a[0]);
        KeyLessIrreflexive(a[0]);
      }
      forall x ensures x in a[1..] <==> x in b[1..] {
        if x in a[1..] {
          var i :| 0 <= i < |a[1..]| && a[1..][i] == x;
          assert KeyLess(a[0], a[i + 1]);
          if x == b[0] { KeyLessIrreflexive(x); }
          assert x in b;
          var j :| 0 <= j < |b| && b[j] == x;
          assert j != 0;
          assert b[1..][j - 1] == x;
        }
        if x in b[1..] {
          var j :| 0 <= j < |b[1..]| && b[1..][j] == x;
          assert KeyLess(b[0], b[j + 1]);
          if x == a[0] { KeyLessIrreflexive(x); }
          assert x in a;
          var i :| 0 <= i < |a| && a[i] == x;
          assert i != 0;
          assert a[1..][i - 1] == x;
        }
      }
      SortedUnique(a[1..], b[1..]);
      assert a == [a[0]] + a[1..] && b == [b[0]] + b[1..];
    }
  }

  /** With 0/1 flags, every group's mean retention lies in [0, 1]. */
  lemma GroupRetentionBounds(t: seq<Record>, col: Column)
    requires BinaryFlags(t)
    ensures forall i :: 0 <= i < |GroupBy(t, col)| ==>
              0.0 <= GroupBy(t, col)[i].retention <= 1.0
  {
    var gs := GroupBy(t, col);
    forall i | 0 <= i < |gs| ensures 0.0 <= gs[i].retention <= 1.0 {
      var g := Select(t, col, gs[i].key);
      SumOfFlags(g);
      FractionBounds(Count(g, Retained), |g|);
    }
  }

  function SumSizes(gs: seq<GroupStat>): nat {
    if gs == [] then 0 else gs[0].size + SumSizes(gs[1..])
  }

  /** The total of the row counts of the groups named by `ks`. */
  function SumCounts(t: seq<Record>, col: Column, ks: seq<Key>): nat {
    if ks == [] then 0 else Count(t, KeyIs(col, ks[0])) + SumCounts(t, col, ks[1..])
  }

  /** Adding one row adds one to the total exactly when its key is listed. */
  lemma {:induction false} SumCountsCons(r: Record, t: seq<Record>, col: Column, ks: seq<Key>)
    requires StrictlySorted(ks)
    ensures SumCounts([r] + t, col, ks)
         == SumCounts(t, col, ks) + (if KeyOf(col, r).Some? && KeyOf(col, r).value in ks then 1 else 0)
  {
    if ks != [] {
      var rt := [r] + t;
      assert rt[0] == r && rt[1..] == t;
      SumCountsCons(r, t, col, ks[1..]);
      if KeyOf(col, r) == Some(ks[0]) {
        forall j | 1 <= j < |ks| ensures ks[j] != ks[0] {
          KeyLessIrreflexive(ks[0]);
        }
      }
    }
  }

  /** Rows with a key fall into exactly one listed group when the list holds
      every key once. */
  lemma {:induction false} SumCountsCovers(t: seq<Record>, col: Column, ks: seq<Key>)
    requires StrictlySorted(ks)
    requires forall r :: r in t && KeyOf(col, r).Some? ==> KeyOf(col, r).value in ks
    ensures SumCounts(t, col, ks) == Count(t, HasKey(col))
  {
    if t == [] {
      SumCountsEmpty(col, ks);
    } else {
      assert t == [t[0]] + t[1..];
      SumCountsCovers(t[1..], col, ks);
      SumCountsCons(t[0], t[1..], col, ks);
    }
  }

  lemma {:induction false} SumCountsEmpty(col: Column, ks: seq<Key>)
    ensures SumCounts([], col, ks) == 0
  {
    if ks != [] {
      SumCountsEmpty(col, ks[1..]);
    }
  }

  lemma {:induction false} SumSizesIsSumCounts(gs: seq<GroupStat>, t: seq<Record>, col: Column, ks: seq<Key>)
    requires |gs| == |ks|
    requires forall i :: 0 <= i < |gs| ==> gs[i].size == Count(t, KeyIs(col, ks[i]))
    ensures SumSizes(gs) == SumCounts(t, col, ks)
  {
    if gs != [] {
      SumSizesIsSumCounts(gs[1..], t, col, ks[1..]);
    }
  }

  /** The groups partition the rows that have a key: every group's size is its
      row count, and the sizes add up to the number of rows with a key. */
  lemma GroupSizesPartition(t: seq<Record>, col: Column)
    ensures forall i :: 0 <= i < |GroupBy(t, col)| ==>
              GroupBy(t, col)[i].size == Count(t, KeyIs(col, GroupBy(t, col)[i].key)) > 0
    ensures SumSizes(GroupBy(t, col)) == Count(t, HasKey(col))
  {
    var gs, ks := GroupBy(t, col), Keys(t, col);
    SumSizesIsSumCounts(gs, t, col, ks);
    SumCountsCovers(t, col, ks);
  }

  /** Because the segments are disjoint, their row counts add up to at most the table's. */
  lemma {:induction false} SegmentCountsBound(t: seq<Record>)
    ensures Count(t, High) + Count(t, Low) <= |t|
  {
    if t != [] {
      SegmentCountsBound(t[1..]);
    }
  }

  // ------------------------------------------------------------ argmax / argmin

  /** `idxmax`: the position of the first group with the largest mean retention. */
  function IdxMax(gs: seq<GroupStat>): (i: nat)
    requires |gs| > 0
    ensures i < |gs|
    ensures forall j :: 0 <= j < |gs| ==> gs[j].retention <= gs[i].retention
    ensures forall j :: 0 <= j < i ==> gs[j].retention < gs[i].retention
  {
    if |gs| == 1 then 0
    else
      var i := IdxMax(gs[..|gs| - 1]);
      if gs[|gs| - 1].retention > gs[i].retention then |gs| - 1 else i
  }

  /** `idxmin`: the position of the first group with the smallest mean retention. */
  function IdxMin(gs: seq<GroupStat>): (i: nat)
    requires |gs| > 0
    ensures i < |gs|
    ensures forall j :: 0 <= j < |gs| ==> gs[i].retention <= gs[j].retention
    ensures forall j :: 0 <= j < i ==> gs[i].retention < gs[j].retention
  {
    if |gs| == 1 then 0
    else
      var i := IdxMin(gs[..|gs| - 1]);
      if gs[|gs| - 1].retention < gs[i].retention then |gs| - 1 else i
  }

  /** `.max()` of the group means, defined independently of `idxmax`. */
  function MaxRetention(gs: seq<GroupStat>): (m: real)
    requires |gs| > 0
    ensures forall j :: 0 <= j < |gs| ==> gs[j].retention <= m
    ensures exists j :: 0 <= j < |gs| && gs[j].retention == m
  {
    if |gs| == 1 then gs[0].retention
    else
      var rest := MaxRetention(gs[1..]);
      assert forall j :: 1 <= j < |gs| ==> gs[j] == gs[1..][j - 1];
      if gs[0].retention >= rest then gs[0].retention else rest
  }

  /** The key `idxmax` returns, or None where pandas raises on an empty series. */
  function BestKey(gs: seq<GroupStat>): (k: Option<Key>)
    ensures k.None? <==> gs == []
    ensures k.Some? ==> exists i :: 0 <= i < |gs| && gs[i].key == k.value
                          && forall j :: 0 <= j < |gs| ==> gs[j].retention <= gs[i].retention
  {
    if gs == [] then None else Some(gs[IdxMax(gs)].key)
  }

  /** The key `idxmin` returns, or None on an empty series. */
  function WorstKey(gs: seq<GroupStat>): (k: Option<Key>)
    ensures k.None? <==> gs == []
    ensures k.Some? ==> exists i :: 0 <= i < |gs| && gs[i].key == k.value
                          && forall j :: 0 <= j < |gs| ==> gs[i].retention <= gs[j].retention
  {
    if gs == [] then None else Some(gs[IdxMin(gs)].key)
  }

  /** `.max() * 100`, or None on an empty series. */
  function BestRate(gs: seq<GroupStat>): Option<real> {
    if gs == [] then None else Some(MaxRetention(gs) * 100.0)
  }

  /** The best rate is the best key's own rate: `max()` and `idxmax()` agree. */
  lemma BestRateOfBestKey(gs: seq<GroupStat>)
    requires |gs| > 0
    ensures BestRate(gs) == Some(gs[IdxMax(gs)].retention * 100.0)
    ensures forall j :: 0 <= j < |gs| ==> gs[j].retention * 100.0 <= BestRate(gs).value
  {
    var i, m := IdxMax(gs), MaxRetention(gs);
    var j :| 0 <= j < |gs| && gs[j].retention == m;
    assert gs[i].retention == m;
  }

  // ------------------------------------------------------------ ranking

  /** `a` comes before `b` when its rate is higher, or equal with a smaller key:
      descending by rate, ties kept in key order. */
  predicate RankedBefore(a: GroupStat, b: GroupStat) {
    a.retention > b.retention || (a.retention == b.retention && KeyLess(a.key, b.key))
  }

  predicate Ranked(s: seq<GroupStat>) {
    forall i, j :: 0 <= i < j < |s| ==> RankedBefore(s[i], s[j])
  }

  /** A group at least as retained as the first of a ranking, with a smaller
      key than all of them, ranks before each of them. */
  lemma RanksAll(x: GroupStat, s: seq<GroupStat>)
    requires Ranked(s) && s != [] && x.retention >= s[0].retention
    requires forall y :: y in s ==> KeyLess(x.key, y.key)
    ensures forall y :: y in s ==> RankedBefore(x, y)
  {
    forall y | y in s ensures RankedBefore(x, y) {
      var j :| 0 <= j < |s| && s[j] == y;
      if j > 0 { assert RankedBefore(s[0], s[j]); }
    }
  }

  /** The head of a ranking ranks before the rest with one more group that
      it also ranks before. */
  lemma HeadRanksRest(s: seq<GroupStat>, x: GroupStat, rest: seq<GroupStat>)
    requires Ranked(s) && s != [] && s[0].retention > x.retention
    requires multiset(rest) == multiset(s[1..]) + multiset{x}
    ensures forall y :: y in rest ==> RankedBefore(s[0], y)
  {
    forall y | y in rest ensures RankedBefore(s[0], y) {
      assert y in multiset(rest);
      if y != x {
        assert y in multiset(s[1..]);
        var j :| 0 <= j < |s| - 1 && s[1..][j] == y;
        assert s[j + 1] == y;
      }
    }
  }

  lemma PrependRanked(x: GroupStat, s: seq<GroupStat>)
    requires Ranked(s) && forall y :: y in s ==> RankedBefore(x, y)
    ensures Ranked([x] + s)
  {
    var r := [x] + s;
    forall i, j | 0 <= i < j < |r| ensures RankedBefore(r[i], r[j]) {
      if i == 0 { assert r[j] == s[j - 1]; assert r[j] in s; }
      else { assert r[i] == s[i - 1] && r[j] == s[j - 1]; }
    }
  }

  /** Inserting a group in front of every group with a lower or equal rate;
      its key is below all of theirs, so ties stay in key order. */
  function InsertRanked(x: GroupStat, s: seq<GroupStat>): (r: seq<GroupStat>)
    requires Ranked(s)
    requires forall y :: y in s ==> KeyLess(x.key, y.key)
    ensures multiset(r) == multiset(s) + multiset{x}
    ensures Ranked(r)
  {
    if s == [] then [x]
    else if x.retention >= s[0].retention then
      RanksAll(x, s);
      PrependRanked(x, s);
      [x] + s
    else
      var rest := InsertRanked(x, s[1..]);
      HeadRanksRest(s, x, rest);
      PrependRanked(s[0], rest);
      assert s == [s[0]] + s[1..];
      [s[0]] + rest
  }

  lemma HeadKeyBelowRest(gs: seq<GroupStat>, rest: seq<GroupStat>)
    requires KeysSorted(gs) && gs != [] && multiset(rest) == multiset(gs[1..])
    ensures forall y :: y in rest ==> KeyLess(gs[0].key, y.key)
  {
    forall y | y in rest ensures KeyLess(gs[0].key, y.key) {
      assert y in multiset(rest);
      assert y in multiset(gs[1..]);
      var j :| 0 <= j < |gs| - 1 && gs[1..][j] == y;
      assert gs[j + 1] == y;
    }
  }

  /** A stable sort by descending rate: ranked, and a permutation of its input. */
  function SortByRetention(gs: seq<GroupStat>): (r: seq<GroupStat>)
    requires KeysSorted(gs)
    ensures multiset(r) == multiset(gs) && |r| == |gs|
    ensures Ranked(r)
  {
    if gs == [] then []
    else
      var rest := SortByRetention(gs[1..]);
      HeadKeyBelowRest(gs, rest);
      assert gs == [gs[0]] + gs[1..];
      InsertRanked(gs[0], rest)
  }

  /** Ranked implies non-increasing rates. */
  lemma RankedNonIncreasing(s: seq<GroupStat>)
    requires Ranked(s)
    ensures forall i, j :: 0 <= i < j < |s| ==> s[i].retention >= s[j].retention
  {
  }

  function Min(a: nat, b: nat): nat { if a <= b then a else b }

  /** `nlargest(n)` with keep='first': the first n groups in ranked order. */
  function NLargest(gs: seq<GroupStat>, n: nat): seq<GroupStat>
    requires KeysSorted(gs)
  {
    SortByRetention(gs)[..Min(n, |gs|)]
  }

  /** The top n: min(n, |gs|) distinct groups in non-increasing order, each at
      least as good as every group that did not make it, and ranked before it:
      at the cut-off, ties go to the first key. */
  lemma NLargestProperties(gs: seq<GroupStat>, n: nat)
    requires KeysSorted(gs)
    ensures |NLargest(gs, n)| == Min(n, |gs|)
    ensures Ranked(NLargest(gs, n))
    ensures forall g :: g in NLargest(gs, n) ==> g in gs
    ensures forall i, j :: 0 <= i < j < |NLargest(gs, n)| ==>
              NLargest(gs, n)[i].retention >= NLargest(gs, n)[j].retention
    ensures forall g, i :: g in gs && g !in NLargest(gs, n) && 0 <= i < |NLargest(gs, n)| ==>
              g.retention <= NLargest(gs, n)[i].retention
    ensures forall g, i :: g in gs && g !in NLargest(gs, n) && 0 <= i < |NLargest(gs, n)| ==>
              RankedBefore(NLargest(gs, n)[i], g)
  {
    var s := SortByRetention(gs);
    var top := NLargest(gs, n);
    forall g | g in top ensures g in gs {
      assert g in multiset(s);
    }
    forall g, i | g in gs && g !in top && 0 <= i < |top|
      ensures RankedBefore(top[i], g) && g.retention <= top[i].retention
    {
      assert g in multiset(s);
      var j :| 0 <= j < |s| && s[j] == g;
      assert forall k :: 0 <= k < |top| ==> top[k] == s[k];
      assert j >= |top|;
      assert RankedBefore(s[i], s[j]);
    }
  }
}
