/**
  The DataFrame that both report scripts receive from their caller. The
  scripts only read its rows, except for one statement that adds the
  derived `age_group` column to the caller's frame in place.
 */
module DataFrame {
  import opened EngagementTypes
  import opened Aggregation

  /** `pd.cut(df['age'], bins=AgeBins, labels=AgeLabels)`: one band per row,
      NaN (None) for an age outside (0, 100]. */
  function AgeGroupColumn(t: seq<Record>): (c: seq<Option<string>>)
    ensures |c| == |t|
    ensures forall i :: 0 <= i < |t| ==> (c[i].Some? <==> 0 < t[i].age <= 100)
    ensures forall i :: 0 <= i < |t| && c[i].Some? ==> c[i].value in AgeLabels
    ensures forall i :: 0 <= i < |t| ==> c[i] == AgeGroupLabel(t[i].age)
  {
    assert forall i :: 0 <= i < |t| ==> (AgeGroupLabel(t[i].age).Some? <==> 0 < t[i].age <= 100) by {
      forall i | 0 <= i < |t| ensures AgeGroupLabel(t[i].age).Some? <==> 0 < t[i].age <= 100 {
        AgeGroupBands(t[i].age);
      }
    }
    seq(|t|, i requires 0 <= i < |t| => AgeGroupLabel(t[i].age))
  }

  /** `df[df['age_group'] == band].shape[0]` on a column. */
  function LabelCount(c: seq<Option<string>>, band: string): nat {
    if c == [] then 0 else (if c[0] == Some(band) then 1 else 0) + LabelCount(c[1..], band)
  }

  /** Counting a label in the added column is counting the rows whose age
      falls in that band, so the column and the grouping agree. */
  lemma {:induction false} LabelCountIsBandCount(t: seq<Record>, band: string)
    ensures LabelCount(AgeGroupColumn(t), band) == Count(t, KeyIs(AgeGroup, Text(band)))
  {
    if t != [] {
      var c := AgeGroupColumn(t);
      assert c[1..] == AgeGroupColumn(t[1..]);
      assert c[0] == AgeGroupLabel(t[0].age);
      LabelCountIsBandCount(t[1..], band);
    }
  }

  /** The table: its rows, and the `age_group` column once it has been added. */
  class Frame {
    var rows: seq<Record>
    var ageGroup: Option<seq<Option<string>>>

    /** A frame as `pd.read_csv` builds it: the rows, and no derived column. */
    constructor (t: seq<Record>)
      ensures rows == t && ageGroup == None
    {
      rows := t;
      ageGroup := None;
    }

    /** The column in the frame agrees with the age of every row. */
    predicate AgeGroupAdded()
      reads this
    {
      ageGroup == Some(AgeGroupColumn(rows))
    }

    /** `df['age_group'] = pd.cut(df['age'], ...)`: the caller's frame gains
        the column; its rows are left as they were. */
    method AddAgeGroup()
      modifies this
      ensures rows == old(rows)
      ensures AgeGroupAdded()
    {
      ageGroup := Some(AgeGroupColumn(rows));
    }
  }
}
