/** The optional value used for column look-ups that can miss. */
module Options {
  datatype Option<+T> = None | Some(value: T)
}

/**
 * Feature engineering of the trainer (`create_lag_feat` and the column
 * selection that follows it).
 *
 * A pandas column of the engineered table is a sequence of `Cell`s, where
 * `NaN` is the missing value that `shift` and `rolling` introduce at the
 * series boundary. The input series itself is assumed to have no missing
 * values. A row keeps its position in the input as its `index`, as the
 * DataFrame index does through `dropna`.
 */
module Features {
  import opened Numerics
  import opened Options
  import opened Sensor

  /** `shift(24)`: yesterday's value at hourly sampling. */
  const Lag: nat := 24
  /** `rolling(24)`: the trailing day. */
  const Window: nat := 24
  /** `shift(-24)`: tomorrow's value, the prediction target. */
  const Horizon: nat := 24

  datatype Cell = NaN | Num(value: real)

  /** pandas `shift(k)`: row i takes the value of row i - k, NaN where that row does not exist. */
  function Shift(col: seq<real>, k: int): (r: seq<Cell>)
    ensures |r| == |col|
    ensures forall i :: 0 <= i < |col| ==> (r[i].Num? <==> 0 <= i - k < |col|)
    ensures forall i :: 0 <= i < |col| && r[i].Num? ==> r[i].value == col[i - k]
  {
    seq(|col|, i requires 0 <= i < |col| => if 0 <= i - k < |col| then Num(col[i - k]) else NaN)
  }

  /**
   * pandas `rolling(w).mean()` with the default `min_periods = w`: the mean of
   * rows i - w + 1 .. i, NaN until w rows are available.
   */
  function RollingMean(col: seq<real>, w: nat): (r: seq<Cell>)
    requires w > 0
    ensures |r| == |col|
    ensures forall i :: 0 <= i < |col| ==> (r[i].Num? <==> w <= i + 1)
  {
    seq(|col|, i requires 0 <= i < |col| => RollingCell(col, w, i))
  }

  function RollingCell(col: seq<real>, w: nat, i: nat): Cell
    requires w > 0 && i < |col|
  {
    if i + 1 >= w then Num(Mean(col[i + 1 - w .. i + 1])) else NaN
  }

  /** First row of the window of at most w rows that ends just before row i. */
  function WindowStart(i: nat, w: nat): nat
  {
    if i >= w then i - w else 0
  }

  /**
   * The rolling mean computed the way pandas does, in one pass with a running
   * sum that adds the entering value and subtracts the leaving one.
   */
  method RollingMeanOnline(col: seq<real>, w: nat) returns (r: seq<Cell>)
    requires w > 0
    ensures r == RollingMean(col, w)
  {
    r := [];
    var sum := 0.0;
    var i := 0;
    while i < |col|
      invariant 0 <= i <= |col|
      invariant |r| == i
      invariant r == RollingMean(col, w)[..i]
      invariant sum == Sum(col[WindowStart(i, w)..i])
    {
      SlideWindow(col, i, w);
      sum := sum + col[i] - (if i >= w then col[i - w] else 0.0);
      var cell := if i + 1 >= w then Num(sum / w as real) else NaN;
      CellFromSum(col, w, i, sum);
      RollingMeanPrefix(col, w, i);
      r := r + [cell];
      i := i + 1;
    }
  }

  /** The cell the running sum yields at row i is the rolling mean's cell. */
  lemma CellFromSum(col: seq<real>, w: nat, i: nat, sum: real)
    requires w > 0 && i < |col|
    requires sum == Sum(col[WindowStart(i + 1, w)..i + 1])
    ensures (if i + 1 >= w then Num(sum / w as real) else NaN) == RollingCell(col, w, i)
  {
  }

  /** The rolling mean's first i + 1 cells extend its first i by cell i. */
  lemma RollingMeanPrefix(col: seq<real>, w: nat, i: nat)
    requires w > 0 && i < |col|
    ensures RollingMean(col, w)[..i + 1] == RollingMean(col, w)[..i] + [RollingCell(col, w, i)]
  {
  }

  /**
   * Moving the window one row on adds the entering row and, once the window
   * is full, subtracts the row that leaves it.
   */
  lemma SlideWindow(col: seq<real>, i: nat, w: nat)
    requires i < |col| && w > 0
    ensures Sum(col[WindowStart(i + 1, w)..i + 1]) ==
      Sum(col[WindowStart(i, w)..i]) + col[i] - (if i >= w then col[i - w] else 0.0)
    ensures i + 1 >= w ==> WindowStart(i + 1, w) == i + 1 - w
  {
    var lo := WindowStart(i, w);
    assert col[lo..i + 1] == col[lo..i] + [col[i]];
    SumSnoc(col[lo..i], col[i]);
    if i >= w {
      assert col[lo..i + 1][1..] == col[lo + 1..i + 1];
    }
  }

  /** A row of the engineered table before `dropna`. */
  datatype Engineered = Engineered(
    index: nat,
    reading: Reading,
    moistureLag: Cell,
    tempLag: Cell,
    humidityLag: Cell,
    moistureRoll: Cell,
    tempRoll: Cell,
    target: Cell)

  /** No column of the row is NaN (the readings themselves never are). */
  predicate Complete(e: Engineered)
  {
    && e.moistureLag.Num?
    && e.tempLag.Num?
    && e.humidityLag.Num?
    && e.moistureRoll.Num?
    && e.tempRoll.Num?
    && e.target.Num?
  }

  /** A row that survived `dropna`. */
  datatype FeatureRow = FeatureRow(
    index: nat,
    reading: Reading,
    moistureLag: real,
    tempLag: real,
    humidityLag: real,
    moistureRoll: real,
    tempRoll: real,
    target: real)

  function Clean(e: Engineered): FeatureRow
    requires Complete(e)
  {
    FeatureRow(e.index, e.reading, e.moistureLag.value, e.tempLag.value, e.humidityLag.value,
               e.moistureRoll.value, e.tempRoll.value, e.target.value)
  }

  /**
   * The six derived columns added to the table, row by row: the lags, the
   * rolling means and the target. `EngineeredRow` states what each row holds.
   */
  function Engineer(s: seq<Reading>): seq<Engineered>
  {
    var m := Column(s, SoilMoisture);
    var t := Column(s, TempC);
    var h := Column(s, Humidity);
    var mLag := Shift(m, Lag);
    var tLag := Shift(t, Lag);
    var hLag := Shift(h, Lag);
    var mRoll := RollingMean(m, Window);
    var tRoll := RollingMean(t, Window);
    var target := Shift(m, -(Horizon as int));
    seq(|s|, i requires 0 <= i < |s| =>
      Engineered(i, s[i], mLag[i], tLag[i], hLag[i], mRoll[i], tRoll[i], target[i]))
  }

  /** The cleaned versions of the complete rows of a table. */
  function CleanRows(f: seq<Engineered>): set<FeatureRow>
  {
    set i | 0 <= i < |f| && Complete(f[i]) :: Clean(f[i])
  }

  lemma CleanRowsCons(f: seq<Engineered>)
    requires |f| > 0
    ensures CleanRows(f) == (if Complete(f[0]) then {Clean(f[0])} else {}) + CleanRows(f[1..])
  {
    var tail := CleanRows(f[1..]);
    forall x | x in tail
      ensures x in CleanRows(f)
    {
      var j :| 0 <= j < |f[1..]| && Complete(f[1..][j]) && x == Clean(f[1..][j]);
      assert f[1..][j] == f[j + 1];
    }
    forall x | x in CleanRows(f) && x !in (if Complete(f[0]) then {Clean(f[0])} else {})
      ensures x in tail
    {
      var j :| 0 <= j < |f| && Complete(f[j]) && x == Clean(f[j]);
      assert j > 0 && f[j] == f[1..][j - 1];
    }
  }

  /** pandas `dropna()`: keep the complete rows, in order. */
  function DropNa(f: seq<Engineered>): (r: seq<FeatureRow>)
    ensures |r| <= |f|
    ensures forall x :: x in r ==> x in CleanRows(f)
  {
    if |f| == 0 then []
    else
      CleanRowsCons(f);
      (if Complete(f[0]) then [Clean(f[0])] else []) + DropNa(f[1..])
  }

  /** Number of rows `dropna()` removes: none exactly when every row is complete. */
  function CountIncomplete(f: seq<Engineered>): (c: nat)
    ensures c <= |f|
    ensures c == 0 <==> forall i :: 0 <= i < |f| ==> Complete(f[i])
  {
    if |f| == 0 then 0
    else
      assert forall i :: 1 <= i < |f| ==> f[i] == f[1..][i - 1];
      (if Complete(f[0]) then 0 else 1) + CountIncomplete(f[1..])
  }

  /**
   * `create_lag_feat`: engineer the features, then drop the incomplete rows.
   * What survives is exactly the rows i with 24 <= i and i + 24 < n, in
   * order, each holding the lag, the trailing mean and the target of the
   * reference.
   */
  function CreateLagFeatures(s: seq<Reading>): (r: seq<FeatureRow>)
    ensures |r| == KeptCount(|s|)
    ensures forall k :: 0 <= k < |r| ==> Kept(|s|, k + Lag) && r[k] == ExpectedRow(s, k + Lag)
  {
    EngineeredTable(s);
    DropNaMiddleBlock(Engineer(s));
    DropNa(Engineer(s))
  }

  // ---------------------------------------------------------------------
  // Reference: the rows `create_lag_feat` keeps, by index arithmetic.
  // ---------------------------------------------------------------------

  /** Row i of an n-row series has a lag, a full trailing window and a target. */
  predicate Kept(n: nat, i: int)
  {
    Lag <= i && i + Horizon < n
  }

  /** Number of kept rows of an n-row series. */
  function KeptCount(n: nat): nat
  {
    if n >= Lag + Horizon then n - Lag - Horizon else 0
  }

  /** Field f at the Window rows ending with row i. */
  function TrailingWindow(s: seq<Reading>, f: Field, i: nat): seq<real>
    requires Window <= i + 1 <= |s|
  {
    seq(Window, j requires 0 <= j < Window => Get(s[i + 1 - Window + j], f))
  }

  /** The feature row that row i of the series must become. */
  function ExpectedRow(s: seq<Reading>, i: nat): FeatureRow
    requires Kept(|s|, i)
  {
    FeatureRow(
      i, s[i],
      s[i - Lag].moisture, s[i - Lag].temp, s[i - Lag].humidity,
      Mean(TrailingWindow(s, SoilMoisture, i)), Mean(TrailingWindow(s, TempC, i)),
      s[i + Horizon].moisture)
  }

  // ---------------------------------------------------------------------
  // dropna
  // ---------------------------------------------------------------------

  lemma {:induction false} DropNaAppend(a: seq<Engineered>, b: seq<Engineered>)
    ensures DropNa(a + b) == DropNa(a) + DropNa(b)
  {
    if |a| > 0 {
      assert (a + b)[0] == a[0];
      assert (a + b)[1..] == a[1..] + b;
      DropNaAppend(a[1..], b);
    } else {
      assert a + b == b;
    }
  }

  lemma {:induction false} DropNaNoneComplete(f: seq<Engineered>)
    requires forall i :: 0 <= i < |f| ==> !Complete(f[i])
    ensures DropNa(f) == []
  {
    if |f| > 0 {
      DropNaNoneComplete(f[1..]);
    }
  }

  lemma {:induction false} DropNaAllComplete(f: seq<Engineered>)
    requires forall i :: 0 <= i < |f| ==> Complete(f[i])
    ensures |DropNa(f)| == |f|
    ensures forall k :: 0 <= k < |f| ==> DropNa(f)[k] == Clean(f[k])
  {
    if |f| > 0 {
      DropNaAllComplete(f[1..]);
    }
  }

  /** Every complete row survives `dropna`. */
  lemma {:induction false} DropNaKeepsComplete(f: seq<Engineered>)
    ensures forall i :: 0 <= i < |f| && Complete(f[i]) ==> Clean(f[i]) in DropNa(f)
  {
    if |f| > 0 {
      DropNaKeepsComplete(f[1..]);
      assert forall i :: 1 <= i < |f| ==> f[i] == f[1..][i - 1];
    }
  }

  /** Indices strictly ascending along a sequence of rows. */
  predicate Ascending(r: seq<FeatureRow>)
  {
    forall a, b :: 0 <= a < b < |r| ==> r[a].index < r[b].index
  }

  lemma ConsAscending(x: FeatureRow, rest: seq<FeatureRow>)
    requires Ascending(rest)
    requires forall y :: y in rest ==> x.index < y.index
    ensures Ascending([x] + rest)
  {
    var r := [x] + rest;
    forall a, b | 0 <= a < b < |r|
      ensures r[a].index < r[b].index
    {
      assert r[b] == rest[b - 1];
      if a > 0 {
        assert r[a] == rest[a - 1];
      } else {
        assert rest[b - 1] in rest;
      }
    }
  }

  /** Every row `dropna` keeps has an index above any bound all input rows exceed. */
  lemma DropNaAbove(f: seq<Engineered>, lo: int)
    requires forall i :: 0 <= i < |f| ==> lo < f[i].index
    ensures forall x :: x in DropNa(f) ==> lo < x.index
  {
    forall x | x in DropNa(f)
      ensures lo < x.index
    {
      assert x in CleanRows(f);
    }
  }

  /** `dropna` keeps the order of the rows: ascending indices stay ascending. */
  lemma {:induction false} DropNaInOrder(f: seq<Engineered>)
    requires forall a, b :: 0 <= a < b < |f| ==> f[a].index < f[b].index
    ensures Ascending(DropNa(f))
  {
    if |f| > 0 {
      var tail := f[1..];
      assert forall a, b :: 0 <= a < b < |tail| ==> tail[a].index < tail[b].index by {
        assert forall a :: 0 <= a < |tail| ==> tail[a] == f[a + 1];
      }
      DropNaInOrder(tail);
      assert forall i :: 0 <= i < |tail| ==> f[0].index < tail[i].index by {
        assert forall a :: 0 <= a < |tail| ==> tail[a] == f[a + 1];
      }
      DropNaAbove(tail, f[0].index);
      if Complete(f[0]) {
        ConsAscending(Clean(f[0]), DropNa(tail));
      }
    }
  }

  /** Every row is either kept or dropped: kept plus dropped is the row count. */
  lemma {:induction false} DropNaConserves(f: seq<Engineered>)
    ensures |DropNa(f)| + CountIncomplete(f) == |f|
  {
    if |f| > 0 {
      DropNaConserves(f[1..]);
    }
  }

  // ---------------------------------------------------------------------
  // create_lag_feat against the reference
  // ---------------------------------------------------------------------

  /** The window pandas averages at row i is the trailing window of the reference. */
  lemma SliceIsTrailingWindow(s: seq<Reading>, f: Field, i: nat)
    requires Window <= i + 1 <= |s|
    ensures Column(s, f)[i + 1 - Window .. i + 1] == TrailingWindow(s, f, i)
  {
  }

  /**
   * Row i of the engineered table is complete exactly when it is kept, and
   * then it holds the reference values.
   */
  lemma EngineeredRow(s: seq<Reading>, i: nat)
    requires i < |s|
    ensures Engineer(s)[i].index == i
    ensures Complete(Engineer(s)[i]) <==> Kept(|s|, i)
    ensures Kept(|s|, i) ==> Clean(Engineer(s)[i]) == ExpectedRow(s, i)
  {
    var e := Engineer(s);
    if Kept(|s|, i) {
      SliceIsTrailingWindow(s, SoilMoisture, i);
      SliceIsTrailingWindow(s, TempC, i);
    } else if i < Lag {
      assert e[i].moistureLag == NaN;
    } else {
      assert e[i].target == NaN;
    }
  }

  /**
   * `dropna` on a table whose complete rows are exactly rows Lag ..
   * |f| - Horizon - 1 returns that block, in order.
   */
  lemma DropNaMiddleBlock(f: seq<Engineered>)
    requires forall i :: 0 <= i < |f| ==> (Complete(f[i]) <==> Kept(|f|, i))
    ensures |DropNa(f)| == KeptCount(|f|)
    ensures forall k :: 0 <= k < |DropNa(f)| ==> Complete(f[k + Lag]) && DropNa(f)[k] == Clean(f[k + Lag])
  {
    var n := |f|;
    if n < Lag + Horizon {
      DropNaNoneComplete(f);
    } else {
      var a, b, c := f[..Lag], f[Lag..n - Horizon], f[n - Horizon..];
      assert f == a + b + c;
      DropNaAppend(a + b, c);
      DropNaAppend(a, b);
      DropNaNoneComplete(a);
      DropNaNoneComplete(c);
      DropNaAllComplete(b);
    }
  }

  /** Every row of the engineered table is complete iff kept, and then matches the reference. */
  lemma EngineeredTable(s: seq<Reading>)
    ensures forall i :: 0 <= i < |Engineer(s)| ==>
      && (Complete(Engineer(s)[i]) <==> Kept(|Engineer(s)|, i))
      && (Kept(|Engineer(s)|, i) ==> Clean(Engineer(s)[i]) == ExpectedRow(s, i))
  {
    forall i | 0 <= i < |Engineer(s)|
      ensures Complete(Engineer(s)[i]) <==> Kept(|Engineer(s)|, i)
      ensures Kept(|Engineer(s)|, i) ==> Clean(Engineer(s)[i]) == ExpectedRow(s, i)
    {
      EngineeredRow(s, i);
    }
  }

  /** Row i survives exactly when 24 <= i and i + 24 < n. */
  lemma KeptRowsIff(s: seq<Reading>, i: int)
    ensures (exists k :: 0 <= k < |CreateLagFeatures(s)| && CreateLagFeatures(s)[k].index == i)
      <==> Kept(|s|, i)
  {
    var r := CreateLagFeatures(s);
    if Kept(|s|, i) {
      assert r[i - Lag].index == i;
    }
  }

  /** The kept rows are in strictly ascending index order, so none is repeated. */
  lemma KeptRowsAscending(s: seq<Reading>)
    ensures Ascending(CreateLagFeatures(s))
  {
  }

  /** The kept count plus the dropped count is the length of the series. */
  lemma KeptPlusDropped(s: seq<Reading>)
    ensures |CreateLagFeatures(s)| + CountIncomplete(Engineer(s)) == |s|
    ensures CountIncomplete(Engineer(s)) == |s| - KeptCount(|s|)
  {
    DropNaConserves(Engineer(s));
  }

  /**
   * The rolling window needs 23 earlier rows, the lag 24: wherever the lag is
   * defined, so are both rolling means, and they never cause a drop.
   */
  lemma RollingSubsumedByLag(s: seq<Reading>, i: nat)
    requires i < |s|
    ensures Engineer(s)[i].moistureLag.Num? ==> Engineer(s)[i].moistureRoll.Num? && Engineer(s)[i].tempRoll.Num?
    ensures Complete(Engineer(s)[i]) <==> Engineer(s)[i].moistureLag.Num? && Engineer(s)[i].target.Num?
  {
  }

  /** Every feature of a kept row lies within the bounds of the field it is drawn from. */
  lemma FeatureRowsInRange(s: seq<Reading>)
    requires forall i :: 0 <= i < |s| ==> InRange(s[i])
    ensures forall k :: 0 <= k < |CreateLagFeatures(s)| ==>
      var row := CreateLagFeatures(s)[k];
      && MoistureMin <= row.moistureLag <= MoistureMax
      && TempMin <= row.tempLag <= TempMax
      && HumidityMin <= row.humidityLag <= HumidityMax
      && MoistureMin <= row.moistureRoll <= MoistureMax
      && TempMin <= row.tempRoll <= TempMax
      && PHMin <= row.reading.pH <= PHMax
      && MoistureMin <= row.target <= MoistureMax
  {
    var r := CreateLagFeatures(s);
    forall k | 0 <= k < |r|
      ensures MoistureMin <= r[k].moistureRoll <= MoistureMax
      ensures TempMin <= r[k].tempRoll <= TempMax
    {
      var i := k + Lag;
      WindowInRange(s, SoilMoisture, i);
      WindowInRange(s, TempC, i);
    }
    forall k | 0 <= k < |r|
      ensures MoistureMin <= r[k].moistureLag <= MoistureMax
      ensures TempMin <= r[k].tempLag <= TempMax
      ensures HumidityMin <= r[k].humidityLag <= HumidityMax
      ensures PHMin <= r[k].reading.pH <= PHMax
      ensures MoistureMin <= r[k].target <= MoistureMax
    {
      var i := k + Lag;
      assert InRange(s[i - Lag]) && InRange(s[i]) && InRange(s[i + Horizon]);
      assert Lower(SoilMoisture) <= Get(s[i - Lag], SoilMoisture) <= Upper(SoilMoisture);
      assert Lower(TempC) <= Get(s[i - Lag], TempC) <= Upper(TempC);
      assert Lower(Humidity) <= Get(s[i - Lag], Humidity) <= Upper(Humidity);
      assert Lower(SoilPH) <= Get(s[i], SoilPH) <= Upper(SoilPH);
      assert Lower(SoilMoisture) <= Get(s[i + Horizon], SoilMoisture) <= Upper(SoilMoisture);
    }
  }

  /** The trailing mean of an in-range field is in range. */
  lemma WindowInRange(s: seq<Reading>, f: Field, i: nat)
    requires Window <= i + 1 <= |s|
    requires forall j :: 0 <= j < |s| ==> InRange(s[j])
    ensures Lower(f) <= Mean(TrailingWindow(s, f, i)) <= Upper(f)
  {
    var w := TrailingWindow(s, f, i);
    forall j | 0 <= j < |w|
      ensures Lower(f) <= w[j] <= Upper(f)
    {
      assert InRange(s[i + 1 - Window + j]);
    }
    MeanBounds(w, Lower(f), Upper(f));
  }

  // ---------------------------------------------------------------------
  // Column selection: X = df[feature_columns], y = df['moisture_next_day']
  // ---------------------------------------------------------------------

  /** The model's inputs, in the order the regression is fitted on. */
  const FeatureColumns: seq<string> := [
    "moisture_lag_24h",
    "temp_lag_24h",
    "humidity_lag_24h",
    "moisture_rolling_mean_24h",
    "temp_rolling_mean_24h",
    "soil_pH"
  ]

  const TargetColumn: string := "moisture_next_day"

  /** Every numeric column of the cleaned table: the four readings, the five features and the target. */
  const NumericColumns: set<string> :=
    {"soil_moisture", "temp_c", "humidity", "soil_pH",
     "moisture_lag_24h", "temp_lag_24h", "humidity_lag_24h",
     "moisture_rolling_mean_24h", "temp_rolling_mean_24h", TargetColumn}

  /**
   * The value of a named numeric column of a cleaned row; None for any name
   * outside the ten numeric columns (the timestamp column is not modelled).
   */
  function ColumnValue(row: FeatureRow, name: string): (v: Option<real>)
    ensures v.Some? <==> name in NumericColumns
  {
    if name == "soil_moisture" then Some(row.reading.moisture)
    else if name == "temp_c" then Some(row.reading.temp)
    else if name == "humidity" then Some(row.reading.humidity)
    else if name == "soil_pH" then Some(row.reading.pH)
    else if name == "moisture_lag_24h" then Some(row.moistureLag)
    else if name == "temp_lag_24h" then Some(row.tempLag)
    else if name == "humidity_lag_24h" then Some(row.humidityLag)
    else if name == "moisture_rolling_mean_24h" then Some(row.moistureRoll)
    else if name == "temp_rolling_mean_24h" then Some(row.tempRoll)
    else if name == TargetColumn then Some(row.target)
    else None
  }

  /** `row[names]`: the named values in the order asked for, None if any name is unknown. */
  function Select(row: FeatureRow, names: seq<string>): (v: Option<seq<real>>)
    ensures v.Some? <==> forall k :: 0 <= k < |names| ==> ColumnValue(row, names[k]).Some?
    ensures v.Some? ==> |v.value| == |names|
    ensures v.Some? ==> forall k :: 0 <= k < |names| ==> v.value[k] == ColumnValue(row, names[k]).value
  {
    if |names| == 0 then Some([])
    else
      match ColumnValue(row, names[0])
      case None => None
      case Some(x) =>
        match Select(row, names[1..])
        case None => None
        case Some(rest) => Some([x] + rest)
  }

  /** The feature vector of a row: the six named columns, in the fixed order. */
  lemma FeatureVectorOrder(row: FeatureRow)
    ensures Select(row, FeatureColumns) ==
      Some([row.moistureLag, row.tempLag, row.humidityLag, row.moistureRoll, row.tempRoll, row.reading.pH])
  {
    var names := FeatureColumns;
    var expected := [row.moistureLag, row.tempLag, row.humidityLag, row.moistureRoll, row.tempRoll, row.reading.pH];
    assert forall k :: 0 <= k < |names| ==> ColumnValue(row, names[k]) == Some(expected[k]);
    var v := Select(row, names);
    assert v.value == expected;
  }

  /** The design matrix and target vector handed to the regression. */
  datatype Dataset = Dataset(x: seq<seq<real>>, y: seq<real>)

  function TrainingData(rows: seq<FeatureRow>): (d: Dataset)
    ensures |d.x| == |rows| && |d.y| == |rows|
    ensures forall k :: 0 <= k < |rows| ==> Some(d.x[k]) == Select(rows[k], FeatureColumns)
    ensures forall k :: 0 <= k < |rows| ==> Some(d.y[k]) == ColumnValue(rows[k], TargetColumn)
  {
    var d := Dataset(
      seq(|rows|, k requires 0 <= k < |rows| =>
        [rows[k].moistureLag, rows[k].tempLag, rows[k].humidityLag,
         rows[k].moistureRoll, rows[k].tempRoll, rows[k].reading.pH]),
      seq(|rows|, k requires 0 <= k < |rows| => rows[k].target));
    assert forall k :: 0 <= k < |rows| ==> Some(d.x[k]) == Select(rows[k], FeatureColumns) by {
      forall k | 0 <= k < |rows|
        ensures Some(d.x[k]) == Select(rows[k], FeatureColumns)
      {
        FeatureVectorOrder(rows[k]);
      }
    }
    d
  }

  // ---------------------------------------------------------------------
  // Feature importance report
  // ---------------------------------------------------------------------

  /** Label of a coefficient's sign: only a positive one "increases". */
  function Direction(coef: real): (word: string)
    ensures word == "increases" <==> coef > 0.0
    ensures word == "decreases" <==> coef <= 0.0
  {
    if coef > 0.0 then "increases" else "decreases"
  }

  datatype Effect = Effect(feature: string, coef: real, direction: string)

  /** `zip(feature_columns, model.coef_)` with each pair labelled; zip stops at the shorter list. */
  function Importance(features: seq<string>, coefs: seq<real>): (r: seq<Effect>)
    ensures |r| == if |features| <= |coefs| then |features| else |coefs|
    ensures forall k :: 0 <= k < |r| ==>
      && r[k].feature == features[k]
      && r[k].coef == coefs[k]
      && (r[k].direction == "increases" <==> coefs[k] > 0.0)
      && (r[k].direction == "decreases" <==> coefs[k] <= 0.0)
  {
    if |features| == 0 || |coefs| == 0 then []
    else [Effect(features[0], coefs[0], Direction(coefs[0]))] + Importance(features[1..], coefs[1..])
  }
}
