/** The inference service: the feature column list loaded from the saved
    preprocessor, the serving copy of the feature derivation, the frame built
    from one request, and the thresholded prediction. */
module Api {
  import opened Wrappers
  import opened Frames
  import F = Features
  import P = Preprocess
  import opened Seqs

  /** The serving copy's own constants (lines 47 and 56-57). */
  const ServeNotContacted := 999
  const ServeBins: seq<int> := [-1, 0, 1, 2, 4, 10, 100]
  const ServeLabels: seq<string> := ["0", "1", "2", "3-4", "5-10", "10+"]

  const Threshold: real := 0.5
  const BadRequest := 400

  /** `FEATURE_COLUMNS`: the saved numeric list followed by the saved
      categorical list. */
  function FeatureColumns(info: P.PreprocessorInfo): (cols: seq<string>)
    ensures |cols| == |info.numeric| + |info.categorical|
    ensures cols[..|info.numeric|] == info.numeric && cols[|info.numeric|..] == info.categorical
  {
    info.numeric + info.categorical
  }

  /** The columns served are the training columns that have a role: each
      is a non-excluded column of the training frame, and every non-excluded
      object, number-typed or `_bucket` column is among them. */
  lemma FeatureColumnsFromTraining(schema: seq<P.ColumnInfo>)
    requires P.SavePreprocessor(schema).Ok?
    ensures var cols := FeatureColumns(P.SavePreprocessor(schema).value);
            && (forall k :: 0 <= k < |cols| ==> cols[k] !in P.Excluded)
            && (forall k :: 0 <= k < |cols| ==> exists i :: 0 <= i < |schema| && P.IsFeature(schema[i]) && schema[i].name == cols[k])
            && (forall i :: 0 <= i < |schema| && P.IsFeature(schema[i]) && (P.IsCategorical(schema[i]) || P.IsNumeric(schema[i])) ==>
                  schema[i].name in cols)
  {
    var info := P.SavePreprocessor(schema).value;
    var cols := FeatureColumns(info);
    P.RoleListsOrdered(schema);
    forall k | 0 <= k < |cols|
      ensures cols[k] !in P.Excluded
      ensures exists i :: 0 <= i < |schema| && P.IsFeature(schema[i]) && schema[i].name == cols[k]
    {
      if k < |info.numeric| {
        assert cols[k] == info.numeric[k];
        assert cols[k] in info.numeric;
      } else {
        assert cols[k] == info.categorical[k - |info.numeric|];
        assert cols[k] in info.categorical;
      }
    }
  }

  /** A request's `data`: a JSON object, its keys in order. */
  datatype Payload = Payload(keys: seq<string>, data: map<string, Value>)

  /** What a JSON value decodes to here: a number, a string, or `null`,
      which arrives as Python's `None` (JSON has no NaN). */
  predicate IsJson(v: Value)
  {
    v.Num? || v.Str? || v.PyNone?
  }

  predicate IsDict(p: Payload)
  {
    && p.data.Keys == ColumnSet(p.keys)
    && forall c :: c in p.data ==> IsJson(p.data[c])
  }

  type Dict = p: Payload | IsDict(p) witness Payload([], map[])

  /** `pd.DataFrame([payload])`: one row, one column per key; a `None` stays
      an object in its column. */
  function FromPayload(p: Dict): (f: Frame)
    ensures Wf(f) && f.height == 1 && f.columns == p.keys
    ensures forall c :: c in f.data <==> c in p.data
    ensures forall c :: c in p.data ==> f.data[c] == [p.data[c]]
  {
    Frame(p.keys, map c | c in p.data :: [p.data[c]], 1)
  }

  function ServePdaysCells(f: Frame): seq<Value>
    requires F.Pdays in f.data
  {
    EqualsIndicator(f.data[F.Pdays], ServeNotContacted)
  }

  function ServeBalanceCells(f: Frame): seq<Value>
    requires F.Balance in f.data && NumericOrNull(f.data[F.Balance])
  {
    Log1pColumn(ClipLower0(ShiftByMin(f.data[F.Balance])))
  }

  function ServeCampaignCells(f: Frame): seq<Value>
    requires F.Campaign in f.data && NumericOrNull(f.data[F.Campaign])
  {
    CutColumn(f.data[F.Campaign], ServeBins, ServeLabels).value
  }

  /** The assignments `apply_feature_engineering` makes, in its order; there
      is no label on the serving side. */
  function ServingAssignments(f: Frame): seq<Assignment>
    requires F.Balance in f.data ==> NumericOrNull(f.data[F.Balance])
    requires F.Campaign in f.data ==> NumericOrNull(f.data[F.Campaign])
  {
    (if F.Pdays in f.data then [Assign(F.PdaysNotContacted, ServePdaysCells(f))] else [])
    + (if F.Balance in f.data then [Assign(F.BalanceLog1p, ServeBalanceCells(f))] else [])
    + (if F.Campaign in f.data then [Assign(F.CampaignBucket, ServeCampaignCells(f))] else [])
  }

  /** `apply_feature_engineering` (lines 43-60): the three derivations,
      each skipped when its source column is absent; the balance and campaign
      ones raise on any cell that is neither a number nor NaN, such as a
      string or a `None` (balance first). */
  function ApplyFeatureEngineering(f: Frame): (r: Result<Frame>)
    ensures r.Err? <==>
              || (F.Balance in f.data && !NumericOrNull(f.data[F.Balance]))
              || (F.Campaign in f.data && !NumericOrNull(f.data[F.Campaign]))
  {
    if F.Balance in f.data && !NumericOrNull(f.data[F.Balance]) then Err("TypeError: balance is not numeric")
    else if F.Campaign in f.data && !NumericOrNull(f.data[F.Campaign]) then Err("TypeError: campaign is not numeric")
    else Ok(SetColumns(f, ServingAssignments(f)))
  }

  /** The columns `apply_feature_engineering` writes on a frame. */
  function ServingDerived(f: Frame): set<string>
  {
    (if F.Pdays in f.data then {F.PdaysNotContacted} else {})
    + (if F.Balance in f.data then {F.BalanceLog1p} else {})
    + (if F.Campaign in f.data then {F.CampaignBucket} else {})
  }

  lemma ServingAssignmentsNames(f: Frame)
    requires ApplyFeatureEngineering(f).Ok?
    ensures AssignedColumns(ServingAssignments(f)) == ServingDerived(f)
  {
    var ws := ServingAssignments(f);
    var n := if F.Pdays in f.data then 1 else 0;
    var m := n + if F.Balance in f.data then 1 else 0;
    forall k | 0 <= k < |ws|
      ensures ws[k].column in ServingDerived(f)
    {
      if k < n {
        assert ws[k].column == F.PdaysNotContacted;
      } else if k < m {
        assert ws[k].column == F.BalanceLog1p;
      } else {
        assert ws[k].column == F.CampaignBucket;
      }
    }
    if F.Pdays in f.data {
      assert F.PdaysNotContacted == ws[0].column;
    }
    if F.Balance in f.data {
      assert F.BalanceLog1p == ws[n].column;
    }
    if F.Campaign in f.data {
      assert F.CampaignBucket == ws[|ws| - 1].column;
    }
  }

  /** Each derived column holds the cells computed for it. */
  lemma ServingCells(f: Frame)
    requires ApplyFeatureEngineering(f).Ok?
    ensures var g := ApplyFeatureEngineering(f).value;
            && (F.Pdays in f.data ==> F.PdaysNotContacted in g.data && g.data[F.PdaysNotContacted] == ServePdaysCells(f))
            && (F.Balance in f.data ==> F.BalanceLog1p in g.data && g.data[F.BalanceLog1p] == ServeBalanceCells(f))
            && (F.Campaign in f.data ==> F.CampaignBucket in g.data && g.data[F.CampaignBucket] == ServeCampaignCells(f))
  {
    var ws := ServingAssignments(f);
    var n := if F.Pdays in f.data then 1 else 0;
    if F.Pdays in f.data {
      SetColumnsLastWrite(f, ws, 0);
    }
    if F.Balance in f.data {
      SetColumnsLastWrite(f, ws, n);
    }
    if F.Campaign in f.data {
      SetColumnsLastWrite(f, ws, |ws| - 1);
    }
  }

  /** Every other column of the frame is untouched, and nothing else is
      added. */
  lemma ServingKeeps(f: Frame)
    requires ApplyFeatureEngineering(f).Ok?
    ensures var g := ApplyFeatureEngineering(f).value;
            && g.height == f.height
            && (forall c :: c in g.data <==> c in f.data || c in ServingDerived(f))
            && (forall c :: c in f.data && c !in ServingDerived(f) ==> g.data[c] == f.data[c])
  {
    SetColumnsKeeps(f, ServingAssignments(f));
    SetColumnsData(f, ServingAssignments(f));
    ServingAssignmentsNames(f);
  }

  /** `clip(lower=0)` never changes the shifted balance: every argument is
      already at least 1. */
  lemma ClipKeepsShift(col: seq<Value>)
    requires NumericOrNull(col)
    ensures ClipLower0(ShiftByMin(col)) == ShiftByMin(col)
  {
    var args := ShiftByMin(col);
    assert forall i :: 0 <= i < |col| ==> !(args[i].Num? && args[i].n < 0);
  }

  /** A request the service turns into a 400: a balance or campaign that is
      not a number.  A string fails the arithmetic or `pd.cut`, and so does a
      JSON `null`: a column holding only `None` is an object column, on which
      `np.log1p` and `pd.cut` raise `TypeError`. */
  predicate ServeRejects(p: Dict)
  {
    || (F.Balance in p.data && !p.data[F.Balance].Num?)
    || (F.Campaign in p.data && !p.data[F.Campaign].Num?)
  }

  /** The value a one-row request should present for column `c`, written
      against the training definitions: the training `pdays` sentinel, the
      training campaign table, a balance shifted by the minimum of its own
      single row (so always `log1p(1)`), the raw value for any other column
      sent, and a missing value for a column not sent.  A `null` pdays is
      not 999, so it gives 0. */
  function ServedCell(p: Dict, c: string): Value
  {
    if c == F.PdaysNotContacted && F.Pdays in p.data then
      (if p.data[F.Pdays] == Num(F.NotContacted) then Num(1) else Num(0))
    else if c == F.BalanceLog1p && F.Balance in p.data then
      Log1p(1)
    else if c == F.CampaignBucket && F.Campaign in p.data then
      Str(F.CampaignCellBucket(p.data[F.Campaign]))
    else if c in p.data then p.data[c]
    else Null
  }

  lemma ServeCutIsTable(n: int)
    ensures Cut(n, ServeBins, ServeLabels) == F.CampaignBucketOf(n)
  {
    assert ServeBins == F.CampaignBins && ServeLabels == F.CampaignLabels;
    F.CampaignCutIsTable(n);
  }

  lemma ServedPdays(p: Dict)
    requires F.Pdays in p.data
    ensures ServePdaysCells(FromPayload(p)) == [ServedCell(p, F.PdaysNotContacted)]
  {
    var col := ServePdaysCells(FromPayload(p));
    assert |col| == 1;
  }

  lemma ServedBalance(p: Dict)
    requires F.Balance in p.data && p.data[F.Balance].Num?
    ensures NumericOrNull(FromPayload(p).data[F.Balance])
    ensures ServeBalanceCells(FromPayload(p)) == [ServedCell(p, F.BalanceLog1p)]
  {
    var f := FromPayload(p);
    var v := p.data[F.Balance];
    assert f.data[F.Balance] == [v];
    var args := ShiftByMin(f.data[F.Balance]);
    assert IsColumnMinimum(f.data[F.Balance], 0);
    assert args[0] == Num(1);
    var col := ServeBalanceCells(f);
    assert |col| == 1;
  }

  lemma ServedCampaign(p: Dict)
    requires F.Campaign in p.data && p.data[F.Campaign].Num?
    ensures NumericOrNull(FromPayload(p).data[F.Campaign])
    ensures ServeCampaignCells(FromPayload(p)) == [ServedCell(p, F.CampaignBucket)]
  {
    var f := FromPayload(p);
    var v := p.data[F.Campaign];
    assert f.data[F.Campaign] == [v];
    ServeCutIsTable(v.n);
    var col := ServeCampaignCells(f);
    assert |col| == 1;
  }

  /** The derived columns of a one-row request hold the reference cells. */
  lemma ServingRowDerived(p: Dict)
    requires !ServeRejects(p)
    ensures ApplyFeatureEngineering(FromPayload(p)).Ok?
    ensures var f := FromPayload(p);
            var g := ApplyFeatureEngineering(f).value;
            forall c :: c in ServingDerived(f) ==> c in g.data && g.data[c] == [ServedCell(p, c)]
  {
    var f := FromPayload(p);
    if F.Balance in p.data {
      ServedBalance(p);
    }
    if F.Campaign in p.data {
      ServedCampaign(p);
    }
    if F.Pdays in p.data {
      ServedPdays(p);
    }
    ServingCells(f);
  }

  /** On one request row, `apply_feature_engineering` produces exactly the
      reference cells. */
  lemma ServingSingleRow(p: Dict)
    requires !ServeRejects(p)
    ensures ApplyFeatureEngineering(FromPayload(p)).Ok?
    ensures var g := ApplyFeatureEngineering(FromPayload(p)).value;
            && g.height == 1
            && (forall c :: c in g.data ==> g.data[c] == [ServedCell(p, c)])
            && (forall c :: c !in g.data ==> ServedCell(p, c) == Null)
  {
    var f := FromPayload(p);
    ServingRowDerived(p);
    ServingKeeps(f);
    var g := ApplyFeatureEngineering(f).value;
    forall c | c in g.data
      ensures g.data[c] == [ServedCell(p, c)]
    {
      if c !in ServingDerived(f) {
        assert c in f.data;
      }
    }
  }

  /** The request is rejected exactly when the serving derivation fails on
      its one-row frame. */
  lemma RejectsIffDerivationFails(p: Dict)
    ensures ApplyFeatureEngineering(FromPayload(p)).Err? <==> ServeRejects(p)
  {
    var f := FromPayload(p);
    if F.Balance in p.data {
      var v := p.data[F.Balance];
      assert f.data[F.Balance] == [v];
      assert f.data[F.Balance][0] == v;
      assert NumericOrNull(f.data[F.Balance]) <==> v.Num?;
    }
    if F.Campaign in p.data {
      var v := p.data[F.Campaign];
      assert f.data[F.Campaign] == [v];
      assert f.data[F.Campaign][0] == v;
      assert NumericOrNull(f.data[F.Campaign]) <==> v.Num?;
    }
  }

  function NullColumn(height: nat): (col: seq<Value>)
    ensures |col| == height && forall i :: 0 <= i < height ==> col[i] == Null
  {
    seq(height, i => Null)
  }

  /** The loop of `build_feature_frame` (lines 67-69): each expected column
      not yet present is added, filled with missing values; every column
      already there keeps its cells, and nothing else is added. */
  function AddMissingColumns(f: Frame, cols: seq<string>): (g: Frame)
    ensures g.height == f.height
    ensures forall c :: c in f.data ==> c in g.data && g.data[c] == f.data[c]
    ensures forall c :: c in cols && c !in f.data ==> c in g.data && g.data[c] == NullColumn(f.height)
    ensures forall c :: c in g.data ==> c in f.data || c in cols
    ensures Wf(f) ==> Wf(g)
    decreases |cols|
  {
    if |cols| == 0 then f
    else
      var f1 := if cols[0] in f.data then f else SetColumn(f, cols[0], NullColumn(f.height));
      AddColumnWf(f, cols[0]);
      assert forall c :: c in cols ==> c == cols[0] || c in cols[1..];
      AddMissingColumns(f1, cols[1..])
  }

  lemma AddColumnWf(f: Frame, c: string)
    ensures c !in f.data && Wf(f) ==> Wf(SetColumn(f, c, NullColumn(f.height)))
  {
    if c !in f.data && Wf(f) {
      SetColumnWf(f, c, NullColumn(f.height));
    }
  }

  /** `build_feature_frame` (lines 63-71). */
  function BuildFeatureFrame(featureColumns: seq<string>, p: Dict): (r: Result<Frame>)
    ensures r.Err? <==> ServeRejects(p)
    ensures r.Ok? ==> Wf(r.value)
    ensures r.Ok? ==> r.value == Frame(featureColumns, map c | c in featureColumns :: [ServedCell(p, c)], 1)
  {
    RejectsIffDerivationFails(p);
    var df :- ApplyFeatureEngineering(FromPayload(p));
    var filled := AddMissingColumns(df, featureColumns);
    var out := Select(filled, featureColumns);
    ServingSingleRow(p);
    assert forall c :: c in featureColumns ==> c in filled.data && filled.data[c] == [ServedCell(p, c)];
    assert out.data == map c | c in featureColumns :: [ServedCell(p, c)];
    Ok(out)
  }

  /** The two class probabilities the fitted pipeline returns for the row. */
  datatype Probabilities = Probabilities(no: real, yes: real)

  /** The response body of `/predict`, or the HTTP error raised instead. */
  datatype Response =
    | Prediction(prediction: int, probabilityNo: real, probabilityYes: real)
    | HttpError(status: int, detail: string)

  /** `predict` (lines 79-92). The fitted model is a parameter: it may fail
      on a frame, and any failure, like any failure building the frame,
      becomes a 400 carrying the error's text. */
  function Predict(featureColumns: seq<string>, model: Frame -> Result<Probabilities>, request: Dict): (r: Response)
    ensures r.Prediction? <==>
              BuildFeatureFrame(featureColumns, request).Ok? && model(BuildFeatureFrame(featureColumns, request).value).Ok?
    ensures r.Prediction? ==>
              && model(BuildFeatureFrame(featureColumns, request).value) == Ok(Probabilities(r.probabilityNo, r.probabilityYes))
              && (r.prediction == 1 <==> r.probabilityYes >= Threshold)
              && (r.prediction == 0 <==> r.probabilityYes < Threshold)
    ensures r.HttpError? ==> r.status == BadRequest
    ensures ServeRejects(request) ==> r == HttpError(BadRequest, BuildFeatureFrame(featureColumns, request).message)
    ensures BuildFeatureFrame(featureColumns, request).Ok? && model(BuildFeatureFrame(featureColumns, request).value).Err? ==>
              r == HttpError(BadRequest, model(BuildFeatureFrame(featureColumns, request).value).message)
  {
    match BuildFeatureFrame(featureColumns, request)
    case Err(e) => HttpError(BadRequest, e)
    case Ok(features) =>
      match model(features)
      case Err(e) => HttpError(BadRequest, e)
      case Ok(pr) => Prediction(if pr.yes >= Threshold then 1 else 0, pr.no, pr.yes)
  }

  /** The request with key `k` dropped. */
  function RemoveKey(p: Dict, k: string): (q: Dict)
    ensures forall c :: c in q.data <==> c in p.data && c != k
    ensures forall c :: c in q.data ==> q.data[c] == p.data[c]
  {
    var keys := Filter(p.keys, (c: string) => c != k);
    var data := map c | c in p.data && c != k :: p.data[c];
    assert data.Keys == ColumnSet(keys);
    Payload(keys, data)
  }

  lemma ServedCellWithoutKey(p: Dict, k: string, c: string)
    requires c != k && k != F.Pdays && k != F.Balance && k != F.Campaign
    ensures ServedCell(RemoveKey(p, k), c) == ServedCell(p, c)
  {
  }

  /** A key that is neither an expected feature column nor an input of a
      derivation changes nothing: the frame built is the same without it. */
  lemma BuildIgnoresUnknownKey(featureColumns: seq<string>, p: Dict, k: string)
    requires k !in featureColumns && k != F.Pdays && k != F.Balance && k != F.Campaign
    ensures BuildFeatureFrame(featureColumns, RemoveKey(p, k)) == BuildFeatureFrame(featureColumns, p)
  {
    var q := RemoveKey(p, k);
    assert ServeRejects(q) <==> ServeRejects(p);
    if !ServeRejects(p) {
      forall c | c in featureColumns
        ensures ServedCell(q, c) == ServedCell(p, c)
      {
        ServedCellWithoutKey(p, k, c);
      }
      assert (map c | c in featureColumns :: [ServedCell(q, c)]) == (map c | c in featureColumns :: [ServedCell(p, c)]);
    }
  }

  /** ... and so is the response. */
  lemma PredictIgnoresUnknownKey(featureColumns: seq<string>, model: Frame -> Result<Probabilities>, p: Dict, k: string)
    requires k !in featureColumns && k != F.Pdays && k != F.Balance && k != F.Campaign
    ensures Predict(featureColumns, model, RemoveKey(p, k)) == Predict(featureColumns, model, p)
  {
    BuildIgnoresUnknownKey(featureColumns, p, k);
  }
}
