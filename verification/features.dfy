/** Training-side feature derivation (`create_features`). */
module Features {
  import opened Wrappers
  import opened Frames

  const Label := "y"
  const LabelBin := "y_bin"
  const Pdays := "pdays"
  const PdaysNotContacted := "pdays_not_contacted"
  const Balance := "balance"
  const BalanceLog1p := "balance_log1p"
  const Campaign := "campaign"
  const CampaignBucket := "campaign_bucket"

  /** The `pdays` sentinel for a customer never contacted before. */
  const NotContacted := 999

  const LabelMap: map<Value, Value> := map[Str("no") := Num(0), Str("yes") := Num(1)]

  const CampaignBins: seq<int> := [-1, 0, 1, 2, 4, 10, 100]
  const CampaignLabels: seq<string> := ["0", "1", "2", "3-4", "5-10", "10+"]

  /** The campaign buckets written out as a table of left-open intervals;
      numbers at or below -1 and above 100 fall in no bucket. */
  function CampaignBucketOf(n: int): string
  {
    if n <= -1 then NanLabel
    else if n <= 0 then "0"
    else if n <= 1 then "1"
    else if n <= 2 then "2"
    else if n <= 4 then "3-4"
    else if n <= 10 then "5-10"
    else if n <= 100 then "10+"
    else NanLabel
  }

  /** The bucket string of one `campaign` cell; a missing cell gives "nan". */
  function CampaignCellBucket(v: Value): string
  {
    if v.Num? then CampaignBucketOf(v.n) else NanLabel
  }

  /** `pd.cut` with the training bins and labels is the bucket table. */
  lemma CampaignCutIsTable(n: int)
    ensures Cut(n, CampaignBins, CampaignLabels) == CampaignBucketOf(n)
  {
    var bins, labels := CampaignBins, CampaignLabels;
    assert StrictlyIncreasing(bins);
    if -1 < n <= 0 {
      assert InBin(n, bins, 0);
    } else if 0 < n <= 1 {
      assert InBin(n, bins, 1);
    } else if 1 < n <= 2 {
      assert InBin(n, bins, 2);
    } else if 2 < n <= 4 {
      assert InBin(n, bins, 3);
    } else if 4 < n <= 10 {
      assert InBin(n, bins, 4);
    } else if 10 < n <= 100 {
      assert InBin(n, bins, 5);
    } else {
      assert forall i :: 0 <= i < |labels| ==> !InBin(n, bins, i);
    }
  }

  /** The interval ends: -1 lies in no bucket, 0 and 100 close the first
      and last buckets, 101 lies past the last. */
  lemma CampaignEdges()
    ensures Cut(-1, CampaignBins, CampaignLabels) == NanLabel
    ensures Cut(0, CampaignBins, CampaignLabels) == "0"
    ensures Cut(4, CampaignBins, CampaignLabels) == "3-4"
    ensures Cut(5, CampaignBins, CampaignLabels) == "5-10"
    ensures Cut(100, CampaignBins, CampaignLabels) == "10+"
    ensures Cut(101, CampaignBins, CampaignLabels) == NanLabel
  {
    CampaignCutIsTable(-1);
    CampaignCutIsTable(0);
    CampaignCutIsTable(4);
    CampaignCutIsTable(5);
    CampaignCutIsTable(100);
    CampaignCutIsTable(101);
  }

  /** The cells of the `y_bin` column (line 20). */
  function LabelBinCells(f: Frame): seq<Value>
    requires Label in f.data
  {
    MapValues(f.data[Label], LabelMap)
  }

  /** The cells of the `pdays_not_contacted` column (line 24). */
  function PdaysIndicatorCells(f: Frame): seq<Value>
    requires Pdays in f.data
  {
    EqualsIndicator(f.data[Pdays], NotContacted)
  }

  /** The cells of the `balance_log1p` column (lines 29-30). */
  function BalanceLog1pCells(f: Frame): seq<Value>
    requires Balance in f.data && NumericOrNull(f.data[Balance])
  {
    Log1pColumn(ShiftByMin(f.data[Balance]))
  }

  /** The cells of the `campaign_bucket` column (lines 34-38). */
  function CampaignBucketCells(f: Frame): seq<Value>
    requires Campaign in f.data && NumericOrNull(f.data[Campaign])
  {
    CutColumn(f.data[Campaign], CampaignBins, CampaignLabels).value
  }

  /** The assignments `create_features` makes, in its order: the label
      always, each other derived column only when its source column is
      present.  (`y_bin` is never a source column, so testing presence on the
      input is the same as testing it after the label was written.) */
  function TrainingAssignments(f: Frame): (ws: seq<Assignment>)
    requires Label in f.data
    requires Balance in f.data ==> NumericOrNull(f.data[Balance])
    requires Campaign in f.data ==> NumericOrNull(f.data[Campaign])
  {
    [Assign(LabelBin, LabelBinCells(f))]
    + (if Pdays in f.data then [Assign(PdaysNotContacted, PdaysIndicatorCells(f))] else [])
    + (if Balance in f.data then [Assign(BalanceLog1p, BalanceLog1pCells(f))] else [])
    + (if Campaign in f.data then [Assign(CampaignBucket, CampaignBucketCells(f))] else [])
  }

  /** The columns `create_features` writes on a frame, in its order. */
  function TrainingDerivedNames(f: Frame): seq<string>
  {
    [LabelBin]
    + (if Pdays in f.data then [PdaysNotContacted] else [])
    + (if Balance in f.data then [BalanceLog1p] else [])
    + (if Campaign in f.data then [CampaignBucket] else [])
  }

  function TrainingDerived(f: Frame): set<string>
  {
    {LabelBin}
    + (if Pdays in f.data then {PdaysNotContacted} else {})
    + (if Balance in f.data then {BalanceLog1p} else {})
    + (if Campaign in f.data then {CampaignBucket} else {})
  }

  /** `create_features`: works on a copy.  `y` is read without a guard, so a
      frame without it raises; the balance and campaign derivations raise
      when their column holds strings (balance first, as in the source); the
      other derivations are skipped when their source column is absent. */
  function CreateFeatures(f: Frame): (r: Result<Frame>)
    ensures r.Err? <==>
              || Label !in f.data
              || (Balance in f.data && !NumericOrNull(f.data[Balance]))
              || (Campaign in f.data && !NumericOrNull(f.data[Campaign]))
  {
    if Label !in f.data then Err("KeyError: 'y'")
    else if Balance in f.data && !NumericOrNull(f.data[Balance]) then Err("TypeError: balance is not numeric")
    else if Campaign in f.data && !NumericOrNull(f.data[Campaign]) then Err("TypeError: campaign is not numeric")
    else Ok(SetColumns(f, TrainingAssignments(f)))
  }

  lemma TrainingAssignmentsNames(f: Frame)
    requires CreateFeatures(f).Ok?
    ensures AssignedColumns(TrainingAssignments(f)) == TrainingDerived(f)
  {
    var ws := TrainingAssignments(f);
    assert forall k :: 0 <= k < |ws| ==> ws[k].column in TrainingDerived(f);
    assert LabelBin == ws[0].column;
    if Pdays in f.data {
      assert PdaysNotContacted == ws[1].column;
    }
    if Balance in f.data {
      assert BalanceLog1p == ws[if Pdays in f.data then 2 else 1].column;
    }
    if Campaign in f.data {
      assert CampaignBucket == ws[|ws| - 1].column;
    }
  }

  /** The input is not changed: every original column keeps its place and
      its cells, and the only columns added are the derived ones. */
  lemma CreateFeaturesKeepsInput(f: Frame)
    requires CreateFeatures(f).Ok?
    ensures var g := CreateFeatures(f).value;
            && |g.columns| >= |f.columns| && g.columns[..|f.columns|] == f.columns
            && (forall c :: c in g.columns <==> c in f.columns || c in TrainingDerived(f))
            && forall c :: c in f.data && c !in TrainingDerived(f) ==> c in g.data && g.data[c] == f.data[c]
  {
    SetColumnsKeeps(f, TrainingAssignments(f));
    SetColumnsData(f, TrainingAssignments(f));
    TrainingAssignmentsNames(f);
  }

  lemma TrainingAssignmentsInOrder(f: Frame)
    requires CreateFeatures(f).Ok?
    ensures AssignedNames(TrainingAssignments(f)) == TrainingDerivedNames(f)
  {
    var ws := TrainingAssignments(f);
    var names := TrainingDerivedNames(f);
    assert |ws| == |names|;
    forall k | 0 <= k < |ws|
      ensures ws[k].column == names[k]
    {
    }
  }

  /** The columns come out as the input's, in their order, followed by the
      derived columns the input did not already have, in the order
      `create_features` writes them (`y_bin`, `pdays_not_contacted`,
      `balance_log1p`, `campaign_bucket`). */
  lemma CreateFeaturesColumnOrder(f: Frame)
    requires CreateFeatures(f).Ok?
    ensures CreateFeatures(f).value.columns == f.columns + NewColumns(f.columns, TrainingDerivedNames(f))
  {
    SetColumnsOrder(f, TrainingAssignments(f));
    TrainingAssignmentsInOrder(f);
  }

  /** ... and each of those is added once, and none of them was there. */
  lemma TrainingAddedOnce(f: Frame)
    ensures var added := NewColumns(f.columns, TrainingDerivedNames(f));
            && (forall k :: 0 <= k < |added| ==> added[k] !in f.columns)
            && (forall j, k :: 0 <= j < k < |added| ==> added[j] != added[k])
            && (forall c :: c in added <==> c in TrainingDerived(f) && c !in f.columns)
  {
    NewColumnsFresh(f.columns, TrainingDerivedNames(f));
    assert forall c :: c in TrainingDerivedNames(f) <==> c in TrainingDerived(f);
  }

  /** The columns present afterwards are the input's and the derived ones;
      every input column not derived keeps its cells. */
  lemma TrainingKeeps(f: Frame)
    requires CreateFeatures(f).Ok?
    ensures var g := CreateFeatures(f).value;
            && (forall c :: c in g.data <==> c in f.data || c in TrainingDerived(f))
            && (forall c :: c in f.data && c !in TrainingDerived(f) ==> g.data[c] == f.data[c])
  {
    SetColumnsData(f, TrainingAssignments(f));
    TrainingAssignmentsNames(f);
  }

  /** On a well-formed frame the result is a well-formed frame of the same
      height. */
  lemma CreateFeaturesWf(f: Frame)
    requires Wf(f) && CreateFeatures(f).Ok?
    ensures Wf(CreateFeatures(f).value) && CreateFeatures(f).value.height == f.height
  {
    SetColumnsWf(f, TrainingAssignments(f));
    SetColumnsKeeps(f, TrainingAssignments(f));
  }

  /** Each derived column holds the cells computed for it. */
  lemma TrainingCells(f: Frame)
    requires CreateFeatures(f).Ok?
    ensures var g := CreateFeatures(f).value;
            && LabelBin in g.data && g.data[LabelBin] == LabelBinCells(f)
            && (Pdays in f.data ==> PdaysNotContacted in g.data && g.data[PdaysNotContacted] == PdaysIndicatorCells(f))
            && (Balance in f.data ==> BalanceLog1p in g.data && g.data[BalanceLog1p] == BalanceLog1pCells(f))
            && (Campaign in f.data ==> CampaignBucket in g.data && g.data[CampaignBucket] == CampaignBucketCells(f))
  {
    var ws := TrainingAssignments(f);
    SetColumnsLastWrite(f, ws, 0);
    if Pdays in f.data {
      SetColumnsLastWrite(f, ws, 1);
    }
    if Balance in f.data {
      SetColumnsLastWrite(f, ws, if Pdays in f.data then 2 else 1);
    }
    if Campaign in f.data {
      SetColumnsLastWrite(f, ws, |ws| - 1);
    }
  }

  /** `y_bin` is 0 for "no", 1 for "yes" and missing for any other label. */
  lemma LabelBinValues(f: Frame)
    requires CreateFeatures(f).Ok?
    ensures var g := CreateFeatures(f).value;
            && LabelBin in g.data && |g.data[LabelBin]| == |f.data[Label]|
            && forall i :: 0 <= i < |f.data[Label]| ==>
                 && (g.data[LabelBin][i] == Num(0) <==> f.data[Label][i] == Str("no"))
                 && (g.data[LabelBin][i] == Num(1) <==> f.data[Label][i] == Str("yes"))
                 && (g.data[LabelBin][i] == Null <==> f.data[Label][i] !in LabelMap)
  {
    TrainingCells(f);
  }

  /** `pdays_not_contacted` is 1 exactly when `pdays` is 999 and 0 for every
      other cell, a missing one included. */
  lemma PdaysIndicatorValues(f: Frame)
    requires CreateFeatures(f).Ok? && Pdays in f.data
    ensures var g := CreateFeatures(f).value;
            && PdaysNotContacted in g.data && |g.data[PdaysNotContacted]| == |f.data[Pdays]|
            && forall i :: 0 <= i < |f.data[Pdays]| ==>
                 && (g.data[PdaysNotContacted][i] == Num(1) <==> f.data[Pdays][i] == Num(NotContacted))
                 && (g.data[PdaysNotContacted][i] == Num(0) <==> f.data[Pdays][i] != Num(NotContacted))
  {
    TrainingCells(f);
  }

  /** `balance_log1p` is log1p of the balance shifted so that the batch
      minimum maps to 1: every argument is at least 1, and it is exactly 1
      on the rows holding the minimum. */
  lemma BalanceShiftValues(f: Frame)
    requires CreateFeatures(f).Ok? && Balance in f.data
    ensures var g := CreateFeatures(f).value;
            BalanceLog1p in g.data && IsLog1pOfMinShift(f.data[Balance], g.data[BalanceLog1p])
  {
    TrainingCells(f);
    Log1pOfShiftByMin(f.data[Balance]);
  }

  /** `campaign_bucket` follows the bucket table; cells in no bucket and
      missing cells give "nan". */
  lemma CampaignBucketValues(f: Frame)
    requires CreateFeatures(f).Ok? && Campaign in f.data
    ensures var g := CreateFeatures(f).value;
            && CampaignBucket in g.data && |g.data[CampaignBucket]| == |f.data[Campaign]|
            && forall i :: 0 <= i < |f.data[Campaign]| ==>
                 g.data[CampaignBucket][i] == Str(CampaignCellBucket(f.data[Campaign][i]))
  {
    TrainingCells(f);
    var g := CreateFeatures(f).value;
    forall i | 0 <= i < |f.data[Campaign]|
      ensures g.data[CampaignBucket][i] == Str(CampaignCellBucket(f.data[Campaign][i]))
    {
      if f.data[Campaign][i].Num? {
        CampaignCutIsTable(f.data[Campaign][i].n);
      }
    }
  }
}
