/** Column roles for the fitted preprocessor (`build_preprocessor`) and the
    artifact saved next to it. */
module Preprocess {
  import opened Wrappers
  import opened Seqs

  /** The dtypes a column read from the features CSV can have. */
  datatype Dtype = Object | Int64 | Float64 | Bool

  /** One column of the training frame: its name and its dtype. */
  datatype ColumnInfo = ColumnInfo(name: string, dtype: Dtype)

  /** The target, its binary form, and the call duration (known only after
      the outcome, so it would leak the target). */
  const Excluded: set<string> := {"y", "y_bin", "duration"}

  const BucketSuffix := "_bucket"

  /** `np.issubdtype(dtype, np.number)`: integers and floats, not booleans. */
  predicate IsNumberDtype(d: Dtype)
  {
    d == Int64 || d == Float64
  }

  predicate EndsWith(s: string, suffix: string)
  {
    |suffix| <= |s| && s[|s| - |suffix|..] == suffix
  }

  predicate IsFeature(c: ColumnInfo)
  {
    c.name !in Excluded
  }

  predicate IsCategorical(c: ColumnInfo)
  {
    c.dtype == Object || EndsWith(c.name, BucketSuffix)
  }

  predicate IsNumeric(c: ColumnInfo)
  {
    IsNumberDtype(c.dtype)
  }

  function Names(cs: seq<ColumnInfo>): (r: seq<string>)
    ensures |r| == |cs|
    ensures forall i :: 0 <= i < |cs| ==> r[i] == cs[i].name
  {
    seq(|cs|, i requires 0 <= i < |cs| => cs[i].name)
  }

  predicate DistinctNames(cs: seq<ColumnInfo>)
  {
    forall i, j :: 0 <= i < j < |cs| ==> cs[i].name != cs[j].name
  }

  /** The `ColumnTransformer`: the numeric pipeline (median imputation, then
      scaling) on `numeric`, the categorical pipeline (constant "missing",
      then one-hot) on `categorical`, every other column dropped.  Its fitted
      statistics are not modelled. */
  datatype ColumnTransformer = ColumnTransformer(numeric: seq<string>, categorical: seq<string>)

  /** The columns the transformer reads; `remainder="drop"` discards the rest. */
  predicate Transforms(t: ColumnTransformer, name: string)
  {
    name in t.numeric || name in t.categorical
  }

  datatype Built = Built(preprocessor: ColumnTransformer, numeric: seq<string>, categorical: seq<string>)

  /** `build_preprocessor`: drops the excluded columns, then lists as
      categorical every object or `_bucket` column and as numeric every
      number-typed column, both in frame order.  A repeated feature name makes
      `df[c]` a frame, whose missing `.dtype` raises. */
  function BuildPreprocessor(schema: seq<ColumnInfo>): (r: Result<Built>)
    ensures r.Ok? <==> DistinctNames(Filter(schema, IsFeature))
    ensures r.Ok? ==> r.value.preprocessor == ColumnTransformer(r.value.numeric, r.value.categorical)
    ensures r.Ok? ==> forall i :: 0 <= i < |schema| && IsFeature(schema[i]) ==>
                        && (schema[i].name in r.value.categorical <==> IsCategorical(schema[i]))
                        && (schema[i].name in r.value.numeric <==> IsNumeric(schema[i]))
    ensures r.Ok? ==> forall n :: n in r.value.categorical || n in r.value.numeric ==>
                        exists i :: 0 <= i < |schema| && IsFeature(schema[i]) && schema[i].name == n
  {
    var features := Filter(schema, IsFeature);
    if !DistinctNames(features) then Err("AttributeError: 'DataFrame' object has no attribute 'dtype'")
    else
      var categorical := Names(Filter(features, IsCategorical));
      var numeric := Names(Filter(features, IsNumeric));
      RolesByName(schema, features, IsCategorical);
      RolesByName(schema, features, IsNumeric);
      Ok(Built(ColumnTransformer(numeric, categorical), numeric, categorical))
  }

  /** With distinct feature names, a feature's name is selected exactly when
      the feature itself passes the test, and every selected name is a
      feature's. */
  lemma RolesByName(schema: seq<ColumnInfo>, features: seq<ColumnInfo>, keep: ColumnInfo -> bool)
    requires features == Filter(schema, IsFeature) && DistinctNames(features)
    ensures var names := Names(Filter(features, keep));
            && (forall i :: 0 <= i < |schema| && IsFeature(schema[i]) ==> (schema[i].name in names <==> keep(schema[i])))
            && (forall n :: n in names ==> exists i :: 0 <= i < |schema| && IsFeature(schema[i]) && schema[i].name == n)
  {
    var names := Names(Filter(features, keep));
    forall i | 0 <= i < |schema| && IsFeature(schema[i])
      ensures schema[i].name in names <==> keep(schema[i])
    {
      FeatureSelectedByName(schema, features, keep, i);
    }
    forall n | n in names
      ensures exists i :: 0 <= i < |schema| && IsFeature(schema[i]) && schema[i].name == n
    {
      SelectedNameIsFeature(schema, features, keep, n);
    }
  }

  lemma FeatureSelectedByName(schema: seq<ColumnInfo>, features: seq<ColumnInfo>, keep: ColumnInfo -> bool, i: int)
    requires features == Filter(schema, IsFeature) && DistinctNames(features)
    requires 0 <= i < |schema| && IsFeature(schema[i])
    ensures schema[i].name in Names(Filter(features, keep)) <==> keep(schema[i])
  {
    var kept := Filter(features, keep);
    var names := Names(kept);
    var c := schema[i];
    assert c in features;
    if keep(c) {
      assert c in kept;
      var k :| 0 <= k < |kept| && kept[k] == c;
      assert names[k] == c.name;
    }
    if c.name in names {
      var k :| 0 <= k < |names| && names[k] == c.name;
      var d := kept[k];
      assert d in features && keep(d);
      var a :| 0 <= a < |features| && features[a] == d;
      var b :| 0 <= b < |features| && features[b] == c;
      assert a == b;
    }
  }

  lemma SelectedNameIsFeature(schema: seq<ColumnInfo>, features: seq<ColumnInfo>, keep: ColumnInfo -> bool, n: string)
    requires features == Filter(schema, IsFeature)
    requires n in Names(Filter(features, keep))
    ensures exists i :: 0 <= i < |schema| && IsFeature(schema[i]) && schema[i].name == n
  {
    var kept := Filter(features, keep);
    var k :| 0 <= k < |kept| && Names(kept)[k] == n;
    assert kept[k] in features;
    assert kept[k] in schema;
    var i :| 0 <= i < |schema| && schema[i] == kept[k];
    assert schema[i].name == n;
  }

  /** `Names` keeps the subsequence relation. */
  lemma {:induction false} NamesSubsequence(a: seq<ColumnInfo>, b: seq<ColumnInfo>)
    requires IsSubsequence(a, b)
    ensures IsSubsequence(Names(a), Names(b))
    decreases |b|
  {
    if |b| > 0 {
      assert Names(b)[1..] == Names(b[1..]);
      if IsSubsequence(a, b[1..]) {
        NamesSubsequence(a, b[1..]);
      } else {
        assert Names(a)[1..] == Names(a[1..]);
        NamesSubsequence(a[1..], b[1..]);
      }
    }
  }

  lemma {:induction false} SubsequenceTransitive<T>(a: seq<T>, b: seq<T>, c: seq<T>)
    requires IsSubsequence(a, b) && IsSubsequence(b, c)
    ensures IsSubsequence(a, c)
    decreases |c|
  {
    if |c| > 0 {
      if IsSubsequence(b, c[1..]) {
        SubsequenceTransitive(a, b, c[1..]);
      } else {
        // b[0] == c[0] and b[1..] is a subsequence of c[1..]
        if IsSubsequence(a, b[1..]) {
          SubsequenceTransitive(a, b[1..], c[1..]);
        } else {
          SubsequenceTransitive(a[1..], b[1..], c[1..]);
        }
      }
    }
  }

  /** Both role lists keep the frame's column order and never name an
      excluded column. */
  lemma RoleListsOrdered(schema: seq<ColumnInfo>)
    requires BuildPreprocessor(schema).Ok?
    ensures var b := BuildPreprocessor(schema).value;
            && IsSubsequence(b.numeric, Names(schema))
            && IsSubsequence(b.categorical, Names(schema))
            && (forall k :: 0 <= k < |b.numeric| ==> b.numeric[k] !in Excluded)
            && (forall k :: 0 <= k < |b.categorical| ==> b.categorical[k] !in Excluded)
  {
    var features := Filter(schema, IsFeature);
    var cat := Filter(features, IsCategorical);
    var num := Filter(features, IsNumeric);
    SubsequenceTransitive(cat, features, schema);
    SubsequenceTransitive(num, features, schema);
    NamesSubsequence(cat, schema);
    NamesSubsequence(num, schema);
    assert forall k :: 0 <= k < |cat| ==> cat[k] in features;
    assert forall k :: 0 <= k < |num| ==> num[k] in features;
  }

  /** A column is in both lists only when it is number-typed and its name
      ends in `_bucket`. */
  lemma BothRolesOnlyForNumericBuckets(schema: seq<ColumnInfo>, i: int)
    requires BuildPreprocessor(schema).Ok?
    requires 0 <= i < |schema| && IsFeature(schema[i])
    ensures var b := BuildPreprocessor(schema).value;
            schema[i].name in b.numeric && schema[i].name in b.categorical <==>
              IsNumberDtype(schema[i].dtype) && EndsWith(schema[i].name, BucketSuffix)
  {
  }

  /** A feature that is neither object, number-typed nor a bucket is read by
      neither pipeline, so `remainder="drop"` discards it. */
  lemma UntypedFeaturesDropped(schema: seq<ColumnInfo>, i: int)
    requires BuildPreprocessor(schema).Ok?
    requires 0 <= i < |schema| && IsFeature(schema[i])
    ensures var b := BuildPreprocessor(schema).value;
            !Transforms(b.preprocessor, schema[i].name) <==>
              schema[i].dtype != Object && !IsNumberDtype(schema[i].dtype) && !EndsWith(schema[i].name, BucketSuffix)
  {
  }

  /** The artifact `main` saves: the transformer and its two column lists
      (the fit itself is not modelled). */
  datatype PreprocessorInfo = PreprocessorInfo(preprocessor: ColumnTransformer, numeric: seq<string>, categorical: seq<string>)

  /** `main`: build the preprocessor for the features frame and save it with
      the lists it returned. */
  function SavePreprocessor(schema: seq<ColumnInfo>): (r: Result<PreprocessorInfo>)
    ensures r.Ok? <==> BuildPreprocessor(schema).Ok?
    ensures r.Ok? ==> r.value.preprocessor.numeric == r.value.numeric
    ensures r.Ok? ==> r.value.preprocessor.categorical == r.value.categorical
    ensures r.Ok? ==> forall i :: 0 <= i < |schema| && IsFeature(schema[i]) ==>
                        && (schema[i].name in r.value.categorical <==> IsCategorical(schema[i]))
                        && (schema[i].name in r.value.numeric <==> IsNumeric(schema[i]))
  {
    var built :- BuildPreprocessor(schema);
    Ok(PreprocessorInfo(built.preprocessor, built.numeric, built.categorical))
  }
}
