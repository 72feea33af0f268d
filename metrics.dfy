/**
  The metric expressions that both report scripts evaluate in the same way:
  the A/B retention of each feature version and their difference, the
  retention of a segment, and what `idxmax` / `idxmin` over a `groupby`
  mean for the rows of the table.
 */
module Metrics {
  import opened EngagementTypes
  import opened Aggregation

  // ------------------------------------------------------------ A/B test

  /** `df[df['feature_version'] == v]['retention_flag'].mean() * 100`. */
  function FeatureRetention(t: seq<Record>, v: string): (p: Option<real>)
    ensures p.None? <==> forall r :: r in t ==> r.featureVersion != v
  {
    var s := Select(t, FeatureVersion, Text(v));
    assert forall r :: r in s <==> r in t && r.featureVersion == v;
    RetentionRate(s)
  }

  /** With 0/1 flags, the retention of version `v` is 100 times the share of
      its rows that were retained. */
  lemma FeatureRetentionShare(t: seq<Record>, v: string)
    requires BinaryFlags(t)
    ensures FeatureRetention(t, v).Some? ==>
              var s := Select(t, FeatureVersion, Text(v));
              FeatureRetention(t, v).value == Count(s, Retained) as real / |s| as real * 100.0
              && 0.0 <= FeatureRetention(t, v).value <= 100.0
  {
    var s := Select(t, FeatureVersion, Text(v));
    if s != [] {
      RetentionRateIsRetainedShare(s);
    }
  }

  /** `feature_a_retention - feature_b_retention`; NaN when a version is absent. */
  function FeatureAdvantage(t: seq<Record>): (d: Option<real>)
    ensures d.Some? <==> (exists r :: r in t && r.featureVersion == "A")
                         && (exists r :: r in t && r.featureVersion == "B")
  {
    Difference(FeatureRetention(t, "A"), FeatureRetention(t, "B"))
  }

  /** The advantage is A's retention minus B's, and with 0/1 flags it lies
      between -100 and 100. */
  lemma FeatureAdvantageBounds(t: seq<Record>)
    requires BinaryFlags(t)
    ensures FeatureAdvantage(t).Some? ==>
              FeatureAdvantage(t).value == FeatureRetention(t, "A").value - FeatureRetention(t, "B").value
              && -100.0 <= FeatureAdvantage(t).value <= 100.0
  {
    FeatureRetentionShare(t, "A");
    FeatureRetentionShare(t, "B");
  }

  /** The group of a key in `groupby(col)` has, times 100, the same retention
      as the filter `df[df[col] == key]`: the two spellings in the scripts agree. */
  lemma GroupRateIsFilterRate(t: seq<Record>, col: Column, i: nat)
    requires i < |GroupBy(t, col)|
    ensures RetentionRate(Select(t, col, GroupBy(t, col)[i].key))
         == Some(GroupBy(t, col)[i].retention * 100.0)
  {
    StatRate(t, col, GroupBy(t, col)[i]);
  }

  lemma StatRate(t: seq<Record>, col: Column, g: GroupStat)
    requires IsGroupOf(t, col, g)
    ensures RetentionRate(Select(t, col, g.key)) == Some(g.retention * 100.0)
  {
  }

  // ------------------------------------------------------------ segments

  /** The retention of the rows satisfying a segment condition, NaN when none do. */
  function SegmentRetention(t: seq<Record>, c: Condition): (p: Option<real>)
    ensures p.None? <==> forall r :: r in t ==> !Holds(c, r)
  {
    FilterEmpty(t, c);
    RetentionRate(Filter(t, c))
  }

  /** With 0/1 flags, a segment's retention lies in [0, 100]. */
  lemma SegmentRetentionBounds(t: seq<Record>, c: Condition)
    requires BinaryFlags(t)
    ensures SegmentRetention(t, c).Some? ==> 0.0 <= SegmentRetention(t, c).value <= 100.0
  {
    var s := Filter(t, c);
    if s != [] {
      RetentionRateIsRetainedShare(s);
    }
  }

  // ------------------------------------------------------------ best and worst groups

  /** A key whose rows are present has a group. */
  lemma GroupOfKey(t: seq<Record>, col: Column, k: Key) returns (j: nat)
    requires Select(t, col, k) != []
    ensures j < |GroupBy(t, col)| && GroupBy(t, col)[j].key == k
  {
    var s := Select(t, col, k);
    assert s[0] in s;
    var ks := Keys(t, col);
    assert k in ks;
    j :| 0 <= j < |ks| && ks[j] == k;
  }

  /** The mean retention of the rows with key `k`. */
  function KeyRetention(t: seq<Record>, col: Column, k: Key): real
    requires Select(t, col, k) != []
  {
    MeanOf(Select(t, col, k), Retention)
  }

  /** What `idxmax` must return: a present key whose rows have a mean
      retention at least every other present key's, such that every key
      before it in sort order has a strictly lower one (the first maximum). */
  ghost predicate IsBestKey(t: seq<Record>, col: Column, k: Key) {
    Select(t, col, k) != []
    && (forall k' :: Select(t, col, k') != [] ==> KeyRetention(t, col, k') <= KeyRetention(t, col, k))
    && (forall k' :: Select(t, col, k') != [] && KeyLess(k', k) ==> KeyRetention(t, col, k') < KeyRetention(t, col, k))
  }

  /** What `idxmin` must return: the first key with the lowest mean retention. */
  ghost predicate IsWorstKey(t: seq<Record>, col: Column, k: Key) {
    Select(t, col, k) != []
    && (forall k' :: Select(t, col, k') != [] ==> KeyRetention(t, col, k) <= KeyRetention(t, col, k'))
    && (forall k' :: Select(t, col, k') != [] && KeyLess(k', k) ==> KeyRetention(t, col, k) < KeyRetention(t, col, k'))
  }

  /** At most one key is the first maximum. */
  lemma BestKeyUnique(t: seq<Record>, col: Column, k1: Key, k2: Key)
    requires IsBestKey(t, col, k1) && IsBestKey(t, col, k2)
    ensures k1 == k2
  {
    if k1 != k2 {
      KeyLessTotal(k1, k2);
    }
  }

  /** At most one key is the first minimum. */
  lemma WorstKeyUnique(t: seq<Record>, col: Column, k1: Key, k2: Key)
    requires IsWorstKey(t, col, k1) && IsWorstKey(t, col, k2)
    ensures k1 == k2
  {
    if k1 != k2 {
      KeyLessTotal(k1, k2);
    }
  }

  /** `groupby(col)['retention_flag'].mean().idxmax()` returns exactly the
      first maximum; None exactly when no row has a key, where pandas raises. */
  lemma BestKeyIsMaximal(t: seq<Record>, col: Column)
    ensures BestKey(GroupBy(t, col)).None? <==> forall r :: r in t ==> KeyOf(col, r).None?
    ensures forall k :: BestKey(GroupBy(t, col)) == Some(k) <==> IsBestKey(t, col, k)
  {
    var gs := GroupBy(t, col);
    NoGroupsIffNoKeys(t, col);
    if gs != [] {
      var i := IdxMax(gs);
      var k := gs[i].key;
      forall k' | Select(t, col, k') != []
        ensures KeyRetention(t, col, k') <= KeyRetention(t, col, k)
        ensures KeyLess(k', k) ==> KeyRetention(t, col, k') < KeyRetention(t, col, k)
      {
        var j := GroupOfKey(t, col, k');
        if KeyLess(k', k) {
          EarlierKeyEarlierIndex(gs, j, i);
        }
      }
      assert IsBestKey(t, col, k);
      forall k2 | IsBestKey(t, col, k2) ensures k2 == k {
        BestKeyUnique(t, col, k, k2);
      }
    } else {
      forall k | IsBestKey(t, col, k) ensures false {
        var j := GroupOfKey(t, col, k);
      }
    }
  }

  /** `idxmin` likewise returns exactly the first minimum. */
  lemma WorstKeyIsMinimal(t: seq<Record>, col: Column)
    ensures WorstKey(GroupBy(t, col)).None? <==> forall r :: r in t ==> KeyOf(col, r).None?
    ensures forall k :: WorstKey(GroupBy(t, col)) == Some(k) <==> IsWorstKey(t, col, k)
  {
    var gs := GroupBy(t, col);
    NoGroupsIffNoKeys(t, col);
    if gs != [] {
      var i := IdxMin(gs);
      var k := gs[i].key;
      forall k' | Select(t, col, k') != []
        ensures KeyRetention(t, col, k) <= KeyRetention(t, col, k')
        ensures KeyLess(k', k) ==> KeyRetention(t, col, k) < KeyRetention(t, col, k')
      {
        var j := GroupOfKey(t, col, k');
        if KeyLess(k', k) {
          EarlierKeyEarlierIndex(gs, j, i);
        }
      }
      assert IsWorstKey(t, col, k);
      forall k2 | IsWorstKey(t, col, k2) ensures k2 == k {
        WorstKeyUnique(t, col, k, k2);
      }
    } else {
      forall k | IsWorstKey(t, col, k) ensures false {
        var j := GroupOfKey(t, col, k);
      }
    }
  }

  /** There are no groups exactly when no row has a key. */
  lemma NoGroupsIffNoKeys(t: seq<Record>, col: Column)
    ensures GroupBy(t, col) == [] <==> forall r :: r in t ==> KeyOf(col, r).None?
  {
    var ks := Keys(t, col);
    if ks != [] {
      assert ks[0] in ks;
    }
  }

  /** In key-sorted groups, a smaller key sits at a smaller index. */
  lemma EarlierKeyEarlierIndex(gs: seq<GroupStat>, j: nat, i: nat)
    requires KeysSorted(gs) && j < |gs| && i < |gs| && KeyLess(gs[j].key, gs[i].key)
    ensures j < i
  {
    if j == i {
      KeyLessIrreflexive(gs[i].key);
    } else if i < j {
      KeyLessTransitive(gs[j].key, gs[i].key, gs[j].key);
      KeyLessIrreflexive(gs[j].key);
    }
  }

  // ------------------------------------------------------------ averages

  lemma {:induction false} SumOfLowerBound(t: seq<Record>, m: Measure, b: int)
    requires forall i :: 0 <= i < |t| ==> ValueOf(m, t[i]) >= b
    ensures SumOf(t, m) >= b * |t|
  {
    if t != [] {
      var rest := t[1..];
      assert forall i :: 0 <= i < |rest| ==> rest[i] == t[i + 1];
      SumOfLowerBound(rest, m, b);
      assert b * |t| == b * |rest| + b;
    }
  }

  /** A mean is at least any lower bound of its values: with every session at
      least 30 s, `avg_session` is at least 30. */
  lemma MeanLowerBound(t: seq<Record>, m: Measure, b: int)
    requires t != [] && forall r :: r in t ==> ValueOf(m, r) >= b
    ensures Mean(t, m).Some? && Mean(t, m).value >= b as real
  {
    assert forall i :: 0 <= i < |t| ==> t[i] in t;
    SumOfLowerBound(t, m, b);
    QuotientLowerBound(SumOf(t, m), |t|, b);
  }

  lemma QuotientLowerBound(x: int, n: nat, b: int)
    requires n > 0 && x >= b * n
    ensures x as real / n as real >= b as real
  {
    var q, y, c := x as real / n as real, n as real, b as real;
    assert (b * n) as real == c * y;
    assert (q - c) * y == x as real - c * y;
  }
}
