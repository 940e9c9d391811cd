# Bank-marketing feature contract and decision coordinator, in Dafny

This project models the deterministic core of a bank-marketing
term-deposit predictor and of the small decision scaffold that comes with it:

- **Training features** (`create_features`). This derives four columns:
  - `y_bin` from the `yes`/`no` label;
  - a `pdays == 999` indicator;
  - `balance_log1p`, the log of the balance shifted by the batch minimum;
  - `campaign_bucket`, the campaign count put in left-open buckets by `pd.cut`.
- **Serving features** (`apply_feature_engineering`, `build_feature_frame`,
  `predict`). This is the service's own copy of the derivation, applied to
  the single-row frame built from a request. The frame is then reconciled
  with `FEATURE_COLUMNS`, the columns the preprocessor was fitted on:
  missing columns are added as nulls, extra keys are dropped, and the
  columns are ordered. Finally the probability is thresholded at 0.5, and
  any failure becomes a 400 error.
- **Column roles** (`build_preprocessor` and the saved artifact). `y`,
  `y_bin` and `duration` are excluded. The other columns are split into a
  numeric list and a categorical list. The split is by dtype and by the
  `_bucket` suffix, and column order is kept.
- **Decision coordinator** (`hila_starter.py`):
  - signals are ingested into an in-memory knowledge graph;
  - the most recent signals come from a stable descending sort and a slice;
  - a daily brief is drawn from the newest signal;
  - a policy validates the recommended actions and flags those that need approval;
  - the executor queues the rest.

The modules follow the program's structure:

- `Wrappers`: `Option` and `Result`.
- `Seqs`: order-preserving selection, which is a list comprehension with an `if`.
- `Frames`: the pandas operations the feature code uses.
- `Features`, `Preprocess`, `Api` and `Hila`: one module per source file.
- `Parity`: training against serving.

Modelling choices:

- **Frames.** A frame is column-major: an ordered list of column names, a
  map from each name to its cells, and a row count.
- **Cells.** A cell is a `Value`: `Null` (pandas' NaN), `PyNone` (Python's
  `None` held as an object), an integer `Num`, a `Str`, or `Log1p(arg)`.
  `Log1p` is a symbolic `np.log1p` of an integer argument. The logarithm is
  never evaluated, and only its argument is reasoned about.
- **Requests.** A request's values are what JSON decodes to: numbers,
  strings and `null`, which arrives as `None`. A missing number in a
  training row travels as `null`.
- **Errors.** The source raises in several places, and each is modelled as
  an `Err` result:
  - a frame without `y` (a `KeyError`, because line 20 of
    `src/features.py` has no guard);
  - a string or a `None` where the `balance` or `campaign` arithmetic
    expects a number (a `TypeError`);
  - two feature columns with the same name in `build_preprocessor`. Here
    `df[c]` is then a frame and has no single `dtype`.
- **The fitted model** is a parameter of `Predict`: any function from
  frames to a result holding two probabilities. The clock is a parameter
  `now`.

The main proved facts:

- **Training and serving agree on the same frame.** `create_features` and
  `apply_feature_engineering` produce the same cells in every column but
  `y_bin`, and they fail on the same inputs apart from a missing `y`.
- **Served rows.** On the one-row frame the service actually builds,
  `pdays_not_contacted` and `campaign_bucket` match the training row.
  `balance_log1p` is `log1p(1)` for every numeric balance sent. A balance
  or campaign sent as a string or as `null` is a 400: a lone `None` makes
  an object column, on which `np.log1p` and `pd.cut` raise. So a training
  row with a missing balance or campaign cannot be served, and a served
  `balance_log1p` matches training only for the batch's smallest balance.
- **`create_features`** appends the derived columns the input lacks after
  the input's own, in the order it writes them, each once.
- **`build_feature_frame`** equals a one-row reference written against the
  training definitions. Dropping an unknown key changes neither the frame
  nor the response.
- **The role lists** are ordered subsequences of the non-excluded columns.
  Membership in each list is stated in both directions.
- **`recent_signals`** is a permutation followed by a slice. The result is
  sorted newest first, and no signal left out is newer than one returned.
  The sort is stable per timestamp. The brief's summary title and its
  rationale therefore both come from the first-ingested of the newest
  signals.
- **Routing** of recommended actions partitions them into executed,
  approval-needed and skipped. Each list keeps the order of the
  recommendations.

## Model

| member | source | states |
|---|---|---|
| Frames.SetColumn | src/features.py:20-38 | `df[c] = values` makes column `c` hold exactly `values`, keeps every other column and its cells and the row count, overwrites an existing `c` in place and appends a new one last |
| Frames.SetColumnsOrder | src/features.py:20-38 | a run of assignments leaves the earlier columns in order, followed by the newly assigned names in the order of their first assignment |
| Frames.NewColumnsFresh | src/features.py:20-38 | the appended names are exactly the assigned names not already present, none repeated |
| Frames.Select | src/api.py:71 | `df[FEATURE_COLUMNS]` has exactly those columns in that order, each with its cells from the frame, and the same rows |
| Frames.Log1pColumn | src/api.py:51 | `np.log1p` maps each numeric cell `a` to `log1p(a)` and keeps missing cells missing |
| Frames.ColumnMin | src/features.py:29 | `Series.min()` skips missing cells: none exactly when no cell is a number, otherwise a number that some cell holds and that no numeric cell undercuts |
| Frames.ShiftByMin | src/features.py:29-30 | `balance - min + 1` is at least 1 on every numeric row, exactly 1 on the rows attaining the minimum, preserves differences between rows, and is missing on missing rows |
| Frames.Log1pOfMinShiftUnique | src/features.py:29-30 | the properties above pin the shifted column down completely: two columns that both satisfy them are equal |
| Frames.ClipLower0 | src/api.py:51 | `clip(lower=0)` turns every negative number into exactly 0 and changes nothing that is not a negative number |
| Frames.EqualsIndicator | src/features.py:24 | `(col == k).astype(int)` is 1 exactly where the cell equals `k` and 0 everywhere else, missing cells included |
| Frames.MapValues | src/features.py:20 | `Series.map(dict)` gives the mapped value for a key and a missing value for anything else |
| Frames.Cut | src/features.py:34-38 | with increasing bins, a value inside the i-th left-open interval gets the i-th label; a value in no interval gets `"nan"` |
| Frames.CutColumn | src/features.py:34-38 | `pd.cut(...).astype(str)` fails exactly when a cell is not a number or missing; a number gets its interval's label, a missing cell `"nan"` |
| Features.CampaignCutIsTable | src/features.py:33-38 | the `pd.cut` call with the source's bins and labels is the table (-1,0]→"0", (0,1]→"1", (1,2]→"2", (2,4]→"3-4", (4,10]→"5-10", (10,100]→"10+", anything else "nan" |
| Features.CampaignEdges | src/features.py:34-38 | -1 is in no bucket, 0 is "0", 4 is "3-4", 5 is "5-10", 100 is "10+", 101 is in no bucket |
| Features.CreateFeatures | src/features.py:17-40 | fails exactly when `y` is missing or the balance or campaign column holds a non-number |
| Features.CreateFeaturesKeepsInput | src/features.py:17-40 | the input columns keep their places and cells; the only columns added are `y_bin` and the derived columns whose source column is present |
| Features.CreateFeaturesColumnOrder | src/features.py:17-40 | the result's columns are the input's, in order, then the derived names the input lacked in the order `y_bin`, `pdays_not_contacted`, `balance_log1p`, `campaign_bucket` |
| Features.TrainingAddedOnce | src/features.py:17-40 | each appended derived name appears once and was not an input column; they are exactly the derived names the input lacked |
| Features.TrainingKeeps | src/features.py:17-40 | columns present afterwards are exactly the input's and the derived ones; the cells of every input column not derived are unchanged |
| Features.CreateFeaturesWf | src/features.py:17-40 | a well-formed frame stays well formed with the same number of rows |
| Features.TrainingCells | src/features.py:20-38 | each derived column is present whenever its source column is, and then holds that column's derivation |
| Features.LabelBinValues | src/features.py:20 | `y_bin` is 0 exactly for "no", 1 exactly for "yes", missing for any other label |
| Features.PdaysIndicatorValues | src/features.py:23-24 | `pdays_not_contacted` is 1 exactly when `pdays` is 999 and 0 otherwise, missing values included |
| Features.BalanceShiftValues | src/features.py:27-30 | `balance_log1p` is log1p of an argument that is at least 1, equals 1 exactly on the minimum rows and keeps the balances' differences |
| Features.CampaignBucketValues | src/features.py:32-38 | every row's `campaign_bucket` is the bucket table applied to its campaign count |
| Preprocess.BuildPreprocessor | src/preprocess.py:18-42 | fails exactly when two feature columns share a name; otherwise a feature is in the categorical list iff it is object-typed or ends in `_bucket`, and in the numeric list iff it is number-typed; every listed name is a feature; the transformer uses exactly the two lists |
| Preprocess.RolesByName | src/preprocess.py:21-24 | selecting features by a role test lists a feature's name iff the feature passes, and lists only feature names |
| Preprocess.FeatureSelectedByName | src/preprocess.py:23-24 | one feature column's name is in a role list iff that column passes the role's test |
| Preprocess.SelectedNameIsFeature | src/preprocess.py:21-24 | a name in a role list belongs to a non-excluded column of the frame |
| Preprocess.RoleListsOrdered | src/preprocess.py:20-24 | both lists are subsequences of the frame's column names in frame order, and neither holds `y`, `y_bin` or `duration` |
| Preprocess.BothRolesOnlyForNumericBuckets | src/preprocess.py:23-24 | a feature is in both lists exactly when it is number-typed and ends in `_bucket` |
| Preprocess.UntypedFeaturesDropped | src/preprocess.py:23-41 | a feature that is neither object- nor number-typed nor `_bucket` is in neither list, so the transformer drops it |
| Preprocess.SavePreprocessor | src/preprocess.py:44-55 | the artifact exists exactly when the build succeeds, and its `numeric` and `categorical` entries are the lists the transformer uses |
| Api.FeatureColumns | src/api.py:26 | `FEATURE_COLUMNS` starts with the saved numeric list and ends with the saved categorical list |
| Api.FeatureColumnsFromTraining | src/api.py:26 | every served column is a non-excluded training column, and every such column with a role is served |
| Api.FromPayload | src/api.py:64 | `pd.DataFrame([payload])` has one row, the request's keys as columns in order, each holding the request's value (`None` for `null`) |
| Api.ApplyFeatureEngineering | src/api.py:43-60 | fails exactly when the balance or campaign column holds a cell that is neither a number nor NaN, such as a string or `None` |
| Api.ServingCells | src/api.py:46-58 | each derived column is present when its source column is and holds the serving derivation |
| Api.ServingKeeps | src/api.py:43-60 | the columns afterwards are the input's and the derived ones; every other column keeps its cells |
| Api.ClipKeepsShift | src/api.py:51 | `clip(lower=0)` never changes the shifted balance |
| Api.ServeCutIsTable | src/api.py:53-58 | the serving `pd.cut` is the training bucket table |
| Api.ServedPdays | src/api.py:46-47 | on a request row the indicator is 1 iff `pdays` is 999, as in training |
| Api.ServedBalance | src/api.py:49-51 | on a request row with a numeric balance, `balance_log1p` is `log1p(1)` |
| Api.ServedCampaign | src/api.py:53-58 | on a request row with a numeric campaign, `campaign_bucket` is the training bucket of the count |
| Api.ServingSingleRow | src/api.py:63-65 | every column of the engineered request row holds the reference cell, and a column absent from it has a missing reference |
| Api.RejectsIffDerivationFails | src/api.py:49-58 | a request fails feature engineering exactly when it sends a balance or campaign that is not a number, a string or `null` |
| Api.AddMissingColumns | src/api.py:67-69 | columns already present keep their cells; each expected column absent before is added, entirely missing; nothing else is added; the row count is kept |
| Api.BuildFeatureFrame | src/api.py:63-71 | fails exactly on a balance or campaign that is not a number; otherwise the frame has exactly the `FEATURE_COLUMNS`, in order, one row, each cell the engineered value or missing |
| Api.Predict | src/api.py:79-92 | a prediction exactly when building and scoring both succeed; it carries the model's probabilities and is 1 iff `probability_yes >= 0.5`; a failure to build is a 400 carrying the build error's text, and a scoring failure is a 400 carrying the model's error text |
| Api.BuildIgnoresUnknownKey | src/api.py:63-71 | dropping a key that is not an expected column nor `pdays`, `balance` or `campaign` leaves the frame unchanged |
| Api.PredictIgnoresUnknownKey | src/api.py:79-92 | ... and leaves the response unchanged |
| Parity.SameOutcome | src/api.py:43-60 | on the same frame, training succeeds exactly when `y` is present and serving succeeds |
| Parity.SameColumns | src/api.py:43-60 | apart from `y_bin`, both derivations leave the same columns |
| Parity.SameDerivedCells | src/api.py:46-58 | `pdays_not_contacted`, `balance_log1p` and `campaign_bucket` are cell-for-cell equal in training and serving on the same frame |
| Parity.SameCells | src/api.py:43-60 | every column but `y_bin` holds the same cells after either derivation |
| Parity.RowAgreesOnPdaysAndCampaign | src/api.py:46-58 | serving one row of a training frame alone gives the training row's indicator, a missing `pdays` included, and its bucket for a numeric campaign; a row with a missing campaign is rejected |
| Parity.RowBalanceSkew | src/api.py:49-51 | a row with a missing balance is rejected; for a numeric balance, serving the row alone gives the training `balance_log1p` exactly when it is the frame's minimum |
| Parity.SkewExampleTraining | src/features.py:27-30 | training on balances -200 and 300 gives `log1p(1)` and `log1p(501)` |
| Parity.SkewExampleServing | src/api.py:49-51 | serving the balance 300 alone gives `log1p(1)` |
| Hila.FetchSignals | src/hila_starter.py:65-69 | the connector returns exactly the signals it was built with |
| Hila.Ingest | src/hila_starter.py:78-79 | ingestion keeps the stored signals and appends the new ones after them, in order |
| Hila.Insert | src/hila_starter.py:82 | inserting into a newest-first list keeps it newest first and adds exactly the one signal |
| Hila.SortByRecency | src/hila_starter.py:82 | the sort is a permutation of the signals, newest first |
| Hila.SortStable | src/hila_starter.py:82 | for every timestamp, the signals carrying it keep their ingestion order |
| Hila.RecentSignals | src/hila_starter.py:81-82 | `[:limit]` keeps min(limit, n) signals (n + limit, at least 0, for a negative limit), all ingested, newest first |
| Hila.RecentSignalsDefault | src/hila_starter.py:81-82 | with the default limit of 50, at most 50 signals come back, and all of them when there are no more than 50 |
| Hila.RecentSignalsTopK | src/hila_starter.py:81-82 | the signals returned and those left out make up the graph, and none left out is newer than one returned |
| Hila.RecentSignalsNewestFirst | src/hila_starter.py:81-82 | the first signal returned is in the graph and no ingested signal is newer |
| Hila.TitleOf | src/hila_starter.py:103 | `payload.get('title', 'Unknown risk')`: the payload's title when present, the default text otherwise |
| Hila.DailyBrief | src/hila_starter.py:91-107 | with no signals: no risk, no recent signals, confidence 0.2, no actions; otherwise confidence 0.72, actions notify_owner then open_escalation, and the rationale's source and time and the summary's title all come from one and the same ingested signal |
| Hila.DailyBriefNamesNewest | src/hila_starter.py:101-104 | the rationale's time is the newest in the graph |
| Hila.DailyBriefFirstNewest | src/hila_starter.py:101-104 | the brief's signal is the first ingested among the newest; the summary carries its `title` or "Unknown risk", and the rationale names that same signal's source and time |
| Hila.IsValidAction | src/hila_starter.py:116-117 | an action is valid iff it is notify_owner, open_escalation or create_task |
| Hila.RequiresApproval | src/hila_starter.py:113-114 | an action needs approval iff it is open_escalation, refund_customer or update_contract |
| Hila.ApprovalOnlyForEscalation | src/hila_starter.py:113-117 | a valid action needs approval iff it is open_escalation, and runs directly iff it is notify_owner or create_task |
| Hila.Execute | src/hila_starter.py:123-124 | the result names the same action, has status "queued" and one detail, `queued_at`, set to the current time |
| Hila.RouteActions | src/hila_starter.py:151-157 | the approvals are the valid approval-needing actions in recommendation order; the executed results are the queued valid actions needing no approval, in order |
| Hila.RoutingPartition | src/hila_starter.py:151-157 | every recommended action lands in exactly one of executed, approvals needed, skipped |
| Hila.RunDailyBrief | src/hila_starter.py:144-164 | the graph gains the fetched signals, `signals_ingested` is their count, the decision is the brief over the updated graph, and its actions are routed as above |
| Hila.BriefRouting | src/hila_starter.py:151-157 | once anything is ingested, notify_owner is queued and open_escalation sent for approval; with nothing ingested neither happens |

## Left out

- File and artifact I/O is not modelled: reading and writing CSVs, `joblib.dump`/`load`, and the startup checks for missing artifacts. The saved artifact is the value `SavePreprocessor` returns, and the service receives it as a parameter.
- The sklearn fitting and transforms are not modelled: imputers, scaler, one-hot encoder, `fit`, `predict_proba`. They are foreign library code. The transformer is modelled as its two column lists, and the fitted model is a function parameter of `Api.Predict` that may fail.
- Floating point is not modelled:
  - `log1p` values are symbolic (`Log1p(arg)`);
  - cell numbers are unbounded integers;
  - the model's probabilities are unconstrained reals.
- Api.Predict: the build error texts ("TypeError: balance is not numeric", "TypeError: campaign is not numeric") stand in for pandas' and numpy's own `str(exc)`, such as "unsupported operand type(s) for -: 'str' and 'str'". The 400 carries the modelled text, not pandas' wording.
- Api.Predict: does not state that the two probabilities are non-negative and sum to 1. The fitted model promises that, and the model is a parameter.
- Frames.ShiftByMin: does not model int64 wrap-around. pandas holds integer columns as int64, so `balance - min_bal + 1` wraps silently when the balances span 2^63 or more, and the argument can then be 0 or negative. The model's argument is always at least 1. Realistic balances are far below that range.
- Api.ServedBalance: does not model a request integer outside the 64-bit range. pandas stores such a number in an object column, `np.log1p` has no object loop for it, and the source then answers 400. The model gives `log1p(1)`.
- Booleans, floats and nested values in a request are not represented. A request value is a number, a string or `null`.
- FastAPI routing, request validation (its 422 responses), CORS, `/health`, logging and the React form are not modelled: they are transport and UI.
- `train.py`, `evaluate.py`, `dataprocessing.py` and `config.py` are not part of this model. They are training, metrics and I/O glue.
- `datetime.utcnow()` is replaced by a `now` parameter, and timestamps are integers. The summary and rationale strings are abstract datatypes. The text formatting is not modelled, but the title, source and time they show are.
- The `Approval` dataclass and `demo_run` are not modelled. Nothing in the core uses `Approval`. `demo_run` is one fixed wiring; its outcome for a non-empty graph is `Hila.BriefRouting`.
- Hila.RunDailyBrief: assumes that the reasoning engine reads the same knowledge graph the coordinator ingests into, as `demo_run` wires it. With two different graphs, the brief could ignore the new signals.
- Hila.RunDailyBrief: gives every queued action the same `queued_at`. The source reads the clock once per action.
