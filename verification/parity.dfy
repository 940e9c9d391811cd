/** Training-serving parity: the serving copy of the feature derivation
    against `create_features`, on a whole frame and on the single rows the
    service actually sees. */
module Parity {
  import opened Wrappers
  import opened Frames
  import F = Features
  import opened Api

  /** On the same frame, training fails exactly when the label is missing or
      serving fails too: the only extra demand of training is `y`. */
  lemma SameOutcome(f: Frame)
    ensures F.CreateFeatures(f).Ok? <==> F.Label in f.data && ApplyFeatureEngineering(f).Ok?
  {
  }

  /** Apart from `y_bin`, training and serving add the same columns. */
  lemma SameColumns(f: Frame)
    requires F.CreateFeatures(f).Ok?
    ensures var g := F.CreateFeatures(f).value;
            var h := ApplyFeatureEngineering(f).value;
            forall c :: c != F.LabelBin ==> (c in g.data <==> c in h.data)
  {
    F.TrainingKeeps(f);
    ServingKeeps(f);
  }

  /** The three derived columns are equal cell for cell: the serving
      constants are the training ones, and the serving `clip(lower=0)` never
      changes a shifted balance. */
  lemma SameDerivedCells(f: Frame)
    requires F.CreateFeatures(f).Ok?
    ensures var g := F.CreateFeatures(f).value;
            var h := ApplyFeatureEngineering(f).value;
            && (F.Pdays in f.data ==>
                  F.PdaysNotContacted in g.data && F.PdaysNotContacted in h.data &&
                  g.data[F.PdaysNotContacted] == h.data[F.PdaysNotContacted])
            && (F.Balance in f.data ==>
                  F.BalanceLog1p in g.data && F.BalanceLog1p in h.data &&
                  g.data[F.BalanceLog1p] == h.data[F.BalanceLog1p])
            && (F.Campaign in f.data ==>
                  F.CampaignBucket in g.data && F.CampaignBucket in h.data &&
                  g.data[F.CampaignBucket] == h.data[F.CampaignBucket])
  {
    F.TrainingCells(f);
    ServingCells(f);
    assert ServeNotContacted == F.NotContacted;
    assert ServeBins == F.CampaignBins && ServeLabels == F.CampaignLabels;
    if F.Balance in f.data {
      ClipKeepsShift(f.data[F.Balance]);
    }
  }

  /** The input columns neither derivation writes come out unchanged from
      both. */
  lemma SameKeptCells(f: Frame)
    requires F.CreateFeatures(f).Ok?
    ensures var g := F.CreateFeatures(f).value;
            var h := ApplyFeatureEngineering(f).value;
            forall c :: c in f.data && c != F.LabelBin && c !in ServingDerived(f) ==>
              c in g.data && c in h.data && g.data[c] == f.data[c] && h.data[c] == f.data[c]
  {
    F.TrainingKeeps(f);
    ServingKeeps(f);
    assert forall c :: c != F.LabelBin && c !in ServingDerived(f) ==> c !in F.TrainingDerived(f);
  }

  lemma SameCell(f: Frame, c: string)
    requires F.CreateFeatures(f).Ok?
    requires c != F.LabelBin && c in F.CreateFeatures(f).value.data
    ensures c in ApplyFeatureEngineering(f).value.data
    ensures F.CreateFeatures(f).value.data[c] == ApplyFeatureEngineering(f).value.data[c]
  {
    if c in ServingDerived(f) {
      SameDerivedCells(f);
    } else {
      F.TrainingKeeps(f);
      assert c in f.data;
      SameKeptCells(f);
    }
  }

  /** Every column but `y_bin` holds the same cells after either
      derivation. */
  lemma SameCells(f: Frame)
    requires F.CreateFeatures(f).Ok?
    ensures var g := F.CreateFeatures(f).value;
            var h := ApplyFeatureEngineering(f).value;
            forall c :: c != F.LabelBin && c in g.data ==> c in h.data && g.data[c] == h.data[c]
  {
    var g := F.CreateFeatures(f).value;
    forall c | c != F.LabelBin && c in g.data
      ensures c in ApplyFeatureEngineering(f).value.data && g.data[c] == ApplyFeatureEngineering(f).value.data[c]
    {
      SameCell(f, c);
    }
  }

  /** How a training cell travels in a JSON request: a missing number is
      sent as `null`. */
  function AsJson(v: Value): Value
  {
    if v.Null? then PyNone else v
  }

  /** Request `p` carries row `i` of frame `f`: the same keys, and the
      row's cells as values. */
  predicate IsRow(p: Dict, f: Frame, i: nat)
  {
    && p.data.Keys == f.data.Keys
    && (forall c :: c in f.data ==> i < |f.data[c]| && p.data[c] == AsJson(f.data[c][i]))
  }

  /** Serving one row of a training frame on its own: `pdays_not_contacted`
      comes out as in training, a `null` pdays included, and so does
      `campaign_bucket` for a numeric campaign; a row whose campaign is
      missing is rejected by the service, where training gives "nan". */
  lemma RowAgreesOnPdaysAndCampaign(f: Frame, i: nat, p: Dict)
    requires F.CreateFeatures(f).Ok? && IsRow(p, f, i)
    ensures var g := F.CreateFeatures(f).value;
            && (F.Pdays in f.data ==>
                  F.PdaysNotContacted in g.data && i < |g.data[F.PdaysNotContacted]| &&
                  ServedCell(p, F.PdaysNotContacted) == g.data[F.PdaysNotContacted][i])
            && (F.Campaign in f.data ==>
                  F.CampaignBucket in g.data && i < |g.data[F.CampaignBucket]| &&
                  (f.data[F.Campaign][i].Num? ==> ServedCell(p, F.CampaignBucket) == g.data[F.CampaignBucket][i]))
            && (F.Campaign in f.data && f.data[F.Campaign][i].Null? ==> ServeRejects(p))
  {
    var g := F.CreateFeatures(f).value;
    if F.Pdays in f.data {
      F.PdaysIndicatorValues(f);
    }
    if F.Campaign in f.data {
      F.CampaignBucketValues(f);
    }
  }

  /** ... but `balance_log1p` matches training only when the row's balance is
      the smallest balance of the training frame: training shifts by the
      frame's minimum, serving by the row's own.  A row whose balance is
      missing is rejected by the service. */
  lemma RowBalanceSkew(f: Frame, i: nat, p: Dict)
    requires F.CreateFeatures(f).Ok? && IsRow(p, f, i) && F.Balance in f.data
    ensures var g := F.CreateFeatures(f).value;
            var col := f.data[F.Balance];
            && F.BalanceLog1p in g.data && i < |g.data[F.BalanceLog1p]|
            && (col[i].Null? ==> ServeRejects(p))
            && (col[i].Num? ==>
                  (ServedCell(p, F.BalanceLog1p) == g.data[F.BalanceLog1p][i] <==> IsColumnMinimum(col, i)))
  {
    F.BalanceShiftValues(f);
  }

  /** Two clients with balances -200 and 300. */
  const SkewFrame: Frame :=
    Frame([F.Label, F.Balance], map[F.Label := [Str("no"), Str("yes")], F.Balance := [Num(-200), Num(300)]], 2)

  const SkewRequest: Dict := Payload([F.Balance], map[F.Balance := Num(300)])

  /** Training gives the second client `log1p(501)` ... */
  lemma SkewExampleTraining()
    ensures F.CreateFeatures(SkewFrame).Ok?
    ensures var g := F.CreateFeatures(SkewFrame).value;
            F.BalanceLog1p in g.data && g.data[F.BalanceLog1p] == [Log1p(1), Log1p(501)]
  {
    var col := SkewFrame.data[F.Balance];
    assert col == [Num(-200), Num(300)];
    assert NumericOrNull(col);
    assert F.CreateFeatures(SkewFrame).Ok?;
    F.BalanceShiftValues(SkewFrame);
    var out := F.CreateFeatures(SkewFrame).value.data[F.BalanceLog1p];
    assert IsColumnMinimum(col, 0);
    assert out[0] == Log1p(1);
    assert out[1].arg - out[0].arg == 500;
  }

  /** ... while serving that client alone gives `log1p(1)`. */
  lemma SkewExampleServing()
    ensures BuildFeatureFrame([F.BalanceLog1p], SkewRequest) == Ok(Frame([F.BalanceLog1p], map[F.BalanceLog1p := [Log1p(1)]], 1))
  {
    assert !ServeRejects(SkewRequest);
    assert (map c | c in [F.BalanceLog1p] :: [ServedCell(SkewRequest, c)]) == map[F.BalanceLog1p := [Log1p(1)]];
  }
}
