/** A small model of the pandas operations the feature code relies on.
    A frame is its column order, one sequence of cells per column, and its
    number of rows. */
module Frames {
  import opened Wrappers

  /** One cell.  `Log1p(a)` stands for numpy's `log1p(a)`: the real number is
      never computed, so log1p stays uninterpreted and only its integer
      argument is reasoned about (log1p is injective, so two such cells are
      equal exactly when their arguments are).  `Null` is pandas' NaN, the
      missing number; `PyNone` is Python's `None` kept as an object in a
      column, which compares unequal to every number and on which numpy's
      arithmetic and `pd.cut` raise. */
  datatype Value = Null | PyNone | Num(n: int) | Str(s: string) | Log1p(arg: int)

  datatype Frame = Frame(columns: seq<string>, data: map<string, seq<Value>>, height: nat)

  function ColumnSet(columns: seq<string>): set<string>
  {
    set c | c in columns
  }

  /** A pandas frame: every listed column holds one cell per row, and no
      unlisted column is stored. */
  predicate Wf(f: Frame)
  {
    && f.data.Keys == ColumnSet(f.columns)
    && forall c :: c in f.data ==> |f.data[c]| == f.height
  }

  /** `df[c] = values`: an existing column is overwritten in place, a new one
      is appended after the others. */
  function SetColumn(f: Frame, c: string, values: seq<Value>): (g: Frame)
    ensures g.height == f.height
    ensures c in g.data && g.data[c] == values
    ensures forall d :: d != c ==> (d in g.data <==> d in f.data)
    ensures forall d :: d != c && d in f.data ==> g.data[d] == f.data[d]
    ensures c in f.columns ==> g.columns == f.columns
    ensures c !in f.columns ==> g.columns == f.columns + [c]
  {
    Frame(if c in f.columns then f.columns else f.columns + [c], f.data[c := values], f.height)
  }

  /** Setting a column keeps the earlier columns in place and adds at most
      the one named. */
  lemma SetColumnOrder(f: Frame, c: string, values: seq<Value>)
    ensures var g := SetColumn(f, c, values);
            && |g.columns| >= |f.columns| && g.columns[..|f.columns|] == f.columns
            && ColumnSet(g.columns) == ColumnSet(f.columns) + {c}
  {
    var g := SetColumn(f, c, values);
    assert ColumnSet(g.columns) == ColumnSet(f.columns) + {c};
  }

  lemma SetColumnWf(f: Frame, c: string, values: seq<Value>)
    requires Wf(f) && |values| == f.height
    ensures Wf(SetColumn(f, c, values))
  {
    SetColumnOrder(f, c, values);
  }

  /** One `df[column] = values` assignment. */
  datatype Assignment = Assign(column: string, values: seq<Value>)

  /** A run of column assignments, applied left to right. */
  function SetColumns(f: Frame, writes: seq<Assignment>): Frame
    decreases |writes|
  {
    if |writes| == 0 then f
    else SetColumns(SetColumn(f, writes[0].column, writes[0].values), writes[1..])
  }

  function AssignedColumns(writes: seq<Assignment>): set<string>
  {
    set k | 0 <= k < |writes| :: writes[k].column
  }

  lemma AssignedColumnsCons(writes: seq<Assignment>)
    requires |writes| > 0
    ensures AssignedColumns(writes) == {writes[0].column} + AssignedColumns(writes[1..])
  {
    assert forall k :: 1 <= k < |writes| ==> writes[k].column == writes[1..][k - 1].column;
    assert forall k :: 0 <= k < |writes| - 1 ==> writes[1..][k].column == writes[k + 1].column;
  }

  /** Assignments keep the earlier columns in place, and add exactly the
      assigned columns that were not there. */
  lemma {:induction false} SetColumnsKeeps(f: Frame, writes: seq<Assignment>)
    ensures var g := SetColumns(f, writes);
            && g.height == f.height
            && |g.columns| >= |f.columns| && g.columns[..|f.columns|] == f.columns
            && (forall c :: c in g.columns <==> c in f.columns || c in AssignedColumns(writes))
    decreases |writes|
  {
    if |writes| > 0 {
      var f1 := SetColumn(f, writes[0].column, writes[0].values);
      SetColumnOrder(f, writes[0].column, writes[0].values);
      SetColumnsKeeps(f1, writes[1..]);
      AssignedColumnsCons(writes);
      var g := SetColumns(f1, writes[1..]);
      assert g.columns[..|f.columns|] == f.columns by {
        assert g.columns[..|f1.columns|] == f1.columns;
      }
    }
  }

  /** Assignments keep the cells of every column they do not assign, and the
      columns present afterwards are the earlier ones and the assigned ones. */
  lemma {:induction false} SetColumnsData(f: Frame, writes: seq<Assignment>)
    ensures var g := SetColumns(f, writes);
            && (forall c :: c in g.data <==> c in f.data || c in AssignedColumns(writes))
            && (forall c :: c in f.data && c !in AssignedColumns(writes) ==> g.data[c] == f.data[c])
    decreases |writes|
  {
    if |writes| > 0 {
      var f1 := SetColumn(f, writes[0].column, writes[0].values);
      SetColumnsData(f1, writes[1..]);
      AssignedColumnsCons(writes);
    }
  }

  /** A column holds the cells of the last assignment to it. */
  lemma {:induction false} SetColumnsLastWrite(f: Frame, writes: seq<Assignment>, k: int)
    requires 0 <= k < |writes|
    requires forall j :: k < j < |writes| ==> writes[j].column != writes[k].column
    ensures var g := SetColumns(f, writes);
            writes[k].column in g.data && g.data[writes[k].column] == writes[k].values
    decreases |writes|
  {
    var f1 := SetColumn(f, writes[0].column, writes[0].values);
    if k == 0 {
      SetColumnsData(f1, writes[1..]);
      assert writes[0].column !in AssignedColumns(writes[1..]);
    } else {
      SetColumnsLastWrite(f1, writes[1..], k - 1);
    }
  }

  /** The names `names` would add, in order, to a frame whose columns are
      `cols`: each name not yet present, once. */
  function NewColumns(cols: seq<string>, names: seq<string>): seq<string>
    decreases |names|
  {
    if |names| == 0 then []
    else
      var x := if names[0] in cols then [] else [names[0]];
      x + NewColumns(cols + x, names[1..])
  }

  /** The new names are exactly the given names not yet present, each
      once. */
  lemma {:induction false} NewColumnsFresh(cols: seq<string>, names: seq<string>)
    ensures var r := NewColumns(cols, names);
            && (forall k :: 0 <= k < |r| ==> r[k] !in cols)
            && (forall j, k :: 0 <= j < k < |r| ==> r[j] != r[k])
            && (forall c :: c in r <==> c in names && c !in cols)
    decreases |names|
  {
    if |names| > 0 {
      var x := if names[0] in cols then [] else [names[0]];
      NewColumnsFresh(cols + x, names[1..]);
      assert forall c :: c in names <==> c == names[0] || c in names[1..];
    }
  }

  /** The column names of a run of assignments, in order. */
  function AssignedNames(writes: seq<Assignment>): (names: seq<string>)
    ensures |names| == |writes| && forall k :: 0 <= k < |writes| ==> names[k] == writes[k].column
  {
    seq(|writes|, k requires 0 <= k < |writes| => writes[k].column)
  }

  lemma AppendAssoc<T>(a: seq<T>, b: seq<T>, c: seq<T>)
    ensures a + b + c == a + (b + c)
  {
  }

  lemma AssignedNamesTail(writes: seq<Assignment>)
    requires |writes| > 0
    ensures AssignedNames(writes)[0] == writes[0].column
    ensures AssignedNames(writes)[1..] == AssignedNames(writes[1..])
  {
  }

  /** Assignments append the newly assigned columns after the earlier ones,
      in the order of their first assignment. */
  lemma {:induction false} SetColumnsOrder(f: Frame, writes: seq<Assignment>)
    ensures SetColumns(f, writes).columns == f.columns + NewColumns(f.columns, AssignedNames(writes))
    decreases |writes|
  {
    if |writes| > 0 {
      var c := writes[0].column;
      var f1 := SetColumn(f, c, writes[0].values);
      var x := if c in f.columns then [] else [c];
      var names := AssignedNames(writes);
      var tail := AssignedNames(writes[1..]);
      AssignedNamesTail(writes);
      assert names[0] == c && names[1..] == tail;
      assert NewColumns(f.columns, names) == x + NewColumns(f.columns + x, tail);
      assert f1.columns == f.columns + x;
      SetColumnsOrder(f1, writes[1..]);
      AppendAssoc(f.columns, x, NewColumns(f.columns + x, tail));
    }
  }

  lemma {:induction false} SetColumnsWf(f: Frame, writes: seq<Assignment>)
    requires Wf(f)
    requires forall k :: 0 <= k < |writes| ==> |writes[k].values| == f.height
    ensures Wf(SetColumns(f, writes))
    decreases |writes|
  {
    if |writes| > 0 {
      SetColumnWf(f, writes[0].column, writes[0].values);
      SetColumnsWf(SetColumn(f, writes[0].column, writes[0].values), writes[1..]);
    }
  }

  /** `df[cols]`: the named columns in the order given, every row kept. */
  function Select(f: Frame, cols: seq<string>): (g: Frame)
    requires forall c :: c in cols ==> c in f.data
    ensures g.columns == cols && g.height == f.height
    ensures forall c :: c in g.data <==> c in cols
    ensures forall c :: c in cols ==> g.data[c] == f.data[c]
  {
    Frame(cols, map c | c in cols :: f.data[c], f.height)
  }

  predicate NumericOrNull(col: seq<Value>)
  {
    forall i :: 0 <= i < |col| ==> col[i].Num? || col[i].Null?
  }

  /** Row `i` holds a number no larger than any other number of the column. */
  predicate IsColumnMinimum(col: seq<Value>, i: int)
    requires 0 <= i < |col| && col[i].Num?
  {
    forall j :: 0 <= j < |col| && col[j].Num? ==> col[i].n <= col[j].n
  }

  /** `series.min()` with missing values skipped; `None` is pandas' NaN for a
      column without a single number. */
  function ColumnMin(col: seq<Value>): (m: Option<int>)
    ensures m.None? <==> forall i :: 0 <= i < |col| ==> !col[i].Num?
    ensures m.Some? ==> exists i :: 0 <= i < |col| && col[i] == Num(m.value)
    ensures m.Some? ==> forall i :: 0 <= i < |col| && col[i].Num? ==> m.value <= col[i].n
  {
    if |col| == 0 then None
    else
      var rest := ColumnMin(col[1..]);
      assert forall i :: 1 <= i < |col| ==> col[i] == col[1..][i - 1];
      if !col[0].Num? then rest
      else if rest.None? || col[0].n <= rest.value then Some(col[0].n)
      else rest
  }

  /** What `series - series.min() + 1` promises: missing cells stay missing,
      every number becomes an argument of at least 1, exactly the minimal rows
      get 1, and differences between rows are kept. */
  predicate IsMinShift(col: seq<Value>, args: seq<Value>)
  {
    && |args| == |col|
    && (forall i :: 0 <= i < |col| && col[i].Null? ==> args[i].Null?)
    && (forall i :: 0 <= i < |col| && col[i].Num? ==>
          args[i].Num? && args[i].n >= 1 && (args[i].n == 1 <==> IsColumnMinimum(col, i)))
    && (forall i, j :: 0 <= i < |col| && 0 <= j < |col| && col[i].Num? && col[j].Num? && args[i].Num? && args[j].Num? ==>
          args[i].n - args[j].n == col[i].n - col[j].n)
  }

  /** `series - series.min() + 1` on a column of numbers and missing cells. */
  function ShiftByMin(col: seq<Value>): (args: seq<Value>)
    requires NumericOrNull(col)
    ensures IsMinShift(col, args)
  {
    match ColumnMin(col)
    case None => seq(|col|, i => Null)
    case Some(m) =>
      seq(|col|, i requires 0 <= i < |col| => if col[i].Num? then Num(col[i].n - m + 1) else Null)
  }

  /** What `np.log1p(series - series.min() + 1)` promises: missing cells stay
      missing, every number becomes log1p of an argument of at least 1,
      exactly the minimal rows get log1p(1), and differences between the
      arguments are the differences between the numbers. */
  predicate IsLog1pOfMinShift(col: seq<Value>, out: seq<Value>)
  {
    && |out| == |col|
    && (forall i :: 0 <= i < |col| && !col[i].Num? ==> out[i] == Null)
    && (forall i :: 0 <= i < |col| && col[i].Num? ==>
          out[i].Log1p? && out[i].arg >= 1 && (out[i].arg == 1 <==> IsColumnMinimum(col, i)))
    && (forall i, j :: 0 <= i < |col| && 0 <= j < |col| && col[i].Num? && col[j].Num? && out[i].Log1p? && out[j].Log1p? ==>
          out[i].arg - out[j].arg == col[i].n - col[j].n)
  }

  /** The description above fixes the column completely: two columns that
      both meet it are equal. */
  lemma Log1pOfMinShiftUnique(col: seq<Value>, a: seq<Value>, b: seq<Value>)
    requires IsLog1pOfMinShift(col, a) && IsLog1pOfMinShift(col, b)
    ensures a == b
  {
    var m := ColumnMin(col);
    if m.Some? {
      var k :| 0 <= k < |col| && col[k] == Num(m.value);
      assert IsColumnMinimum(col, k);
      forall i | 0 <= i < |col|
        ensures a[i] == b[i]
      {
        if col[i].Num? {
          assert a[i].arg - a[k].arg == col[i].n - col[k].n;
          assert b[i].arg - b[k].arg == col[i].n - col[k].n;
        }
      }
    }
    assert forall i :: 0 <= i < |col| ==> a[i] == b[i];
  }

  lemma Log1pOfShiftByMin(col: seq<Value>)
    requires NumericOrNull(col)
    ensures IsLog1pOfMinShift(col, Log1pColumn(ShiftByMin(col)))
  {
    var args := ShiftByMin(col);
    var out := Log1pColumn(args);
    assert forall i :: 0 <= i < |col| && col[i].Num? ==> args[i].Num? && out[i] == Log1p(args[i].n);
    assert forall i :: 0 <= i < |col| && !col[i].Num? ==> args[i].Null? && out[i] == Null;
  }

  /** `series.clip(lower=0)` */
  function ClipLower0(col: seq<Value>): (r: seq<Value>)
    ensures |r| == |col|
    ensures forall i :: 0 <= i < |col| && col[i].Num? ==> r[i].Num? && r[i].n >= 0
    ensures forall i :: 0 <= i < |col| && !(col[i].Num? && col[i].n < 0) ==> r[i] == col[i]
    ensures forall i :: 0 <= i < |col| && col[i].Num? && col[i].n < 0 ==> r[i] == Num(0)
  {
    seq(|col|, i requires 0 <= i < |col| => if col[i].Num? && col[i].n < 0 then Num(0) else col[i])
  }

  /** `np.log1p(series)` on a column of numbers and missing cells. */
  function Log1pColumn(col: seq<Value>): (r: seq<Value>)
    ensures |r| == |col|
    ensures forall i :: 0 <= i < |col| && col[i].Num? ==> r[i] == Log1p(col[i].n)
    ensures forall i :: 0 <= i < |col| && col[i].Null? ==> r[i] == Null
  {
    seq(|col|, i requires 0 <= i < |col| => if col[i].Num? then Log1p(col[i].n) else Null)
  }

  /** `(series == k).astype(int)`: a missing cell or a string compares unequal. */
  function EqualsIndicator(col: seq<Value>, k: int): (r: seq<Value>)
    ensures |r| == |col|
    ensures forall i :: 0 <= i < |col| ==> (r[i] == Num(1) <==> col[i] == Num(k))
    ensures forall i :: 0 <= i < |col| ==> (r[i] == Num(0) <==> col[i] != Num(k))
  {
    seq(|col|, i requires 0 <= i < |col| => if col[i] == Num(k) then Num(1) else Num(0))
  }

  /** `series.map(m)` with a dict: a cell that is not a key becomes missing. */
  function MapValues(col: seq<Value>, m: map<Value, Value>): (r: seq<Value>)
    ensures |r| == |col|
    ensures forall i :: 0 <= i < |col| && col[i] in m ==> r[i] == m[col[i]]
    ensures forall i :: 0 <= i < |col| && col[i] !in m ==> r[i] == Null
  {
    seq(|col|, i requires 0 <= i < |col| => if col[i] in m then m[col[i]] else Null)
  }

  /** The string `astype(str)` gives a missing category. */
  const NanLabel := "nan"

  predicate StrictlyIncreasing(bins: seq<int>)
  {
    forall i, j :: 0 <= i < j < |bins| ==> bins[i] < bins[j]
  }

  predicate InBin(x: int, bins: seq<int>, i: int)
    requires 0 <= i < |bins| - 1
  {
    bins[i] < x <= bins[i + 1]
  }

  /** `pd.cut(x, bins, labels).astype(str)` for one number: the label of the
      left-open interval (bins[i], bins[i+1]] holding x, or "nan" when no
      interval does. */
  function Cut(x: int, bins: seq<int>, labels: seq<string>): (r: string)
    requires |bins| == |labels| + 1
    ensures (forall i :: 0 <= i < |labels| ==> !InBin(x, bins, i)) ==> r == NanLabel
    ensures StrictlyIncreasing(bins) ==>
              forall i :: 0 <= i < |labels| && InBin(x, bins, i) ==> r == labels[i]
    decreases |labels|
  {
    if |labels| == 0 then NanLabel
    else if bins[0] < x <= bins[1] then assert InBin(x, bins, 0); labels[0]
    else
      var r := Cut(x, bins[1..], labels[1..]);
      assert forall i :: 0 <= i < |labels| - 1 ==> (InBin(x, bins[1..], i) <==> InBin(x, bins, i + 1));
      r
  }

  /** `pd.cut(series, bins, labels).astype(str)`: missing cells become "nan";
      a column holding anything but numbers and missing cells makes pandas
      raise. */
  function CutColumn(col: seq<Value>, bins: seq<int>, labels: seq<string>): (r: Result<seq<Value>>)
    requires |bins| == |labels| + 1
    ensures r.Ok? <==> NumericOrNull(col)
    ensures r.Ok? ==> |r.value| == |col|
    ensures r.Ok? ==> forall i :: 0 <= i < |col| && col[i].Num? ==> r.value[i] == Str(Cut(col[i].n, bins, labels))
    ensures r.Ok? ==> forall i :: 0 <= i < |col| && col[i].Null? ==> r.value[i] == Str(NanLabel)
  {
    if !NumericOrNull(col) then Err("TypeError: pd.cut needs numeric values")
    else Ok(seq(|col|, i requires 0 <= i < |col| => if col[i].Num? then Str(Cut(col[i].n, bins, labels)) else Str(NanLabel)))
  }
}
