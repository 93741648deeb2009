# AgroIntel moisture pipeline in Dafny

This project models the three pieces of logic in the AgroIntel soil-moisture pipeline:

- **The sensor simulator** (`gen_synthetic_sensor_data`) produces hourly or 15-minute readings of soil moisture, temperature, humidity and soil pH. Moisture is a base level plus a diurnal cycle plus a drying drift plus noise. Temperature is a diurnal cycle plus noise. Humidity is a base level, pulled down by the (clamped) temperature, plus noise. pH is noise around 6.5. Every field is clamped to realistic bounds and then rounded.
- **The feature builder** (`create_lag_feat` and the column selection after it) derives the training table:
  - 24-sample lag features,
  - 24-sample trailing means,
  - a target 24 samples ahead.

  It then drops every row that holds a missing value. It also fixes the order of the six model inputs and labels each fitted coefficient "increases" or "decreases".
- **The irrigation advisor** (`gen_recommendation`) maps a predicted next-day moisture to CRITICAL, WARNING, HIGH or OPTIMAL, with an action, details and a reason.

The Dafny modules follow that split:

| file | module | models |
|---|---|---|
| `numerics.dfy` | `Numerics` | sums, means, `max(lo, min(hi, x))` clamping, numpy's round-half-to-even to tenths and hundredths |
| `sensor.dfy` | `Sensor` | one reading of the sensor table and its bounds |
| `simulator.dfy` | `Simulator` | `ml_pipeline/gen_training_data.py` |
| `features.dfy` | `Options`, `Features` | `ml_pipeline/train_model.py`, lines 10-33, 60-70 and 118-120 |
| `irrigation.dfy` | `Irrigation` | `ml_pipeline/predict_demo.py`, lines 28-79 |
| `pipeline.dfy` | `Pipeline` | the simulator's table fed into the feature builder |

Modelling choices:

- **Randomness.** The global generator seeded with 42 is modelled as its stream of standard-normal values, `draws: nat -> real`. `np.random.normal(loc, s)` is `loc + s * draws(k)`. The generator makes four passes over n samples: moisture, then temperature, then humidity, then pH. Pass p at sample i therefore consumes draw `p * n + i`.
- **The diurnal cycle.** The factor `sin(2*pi*(hour - 6)/24)` of sample i is the input `cycle(i)`, because the hour comes from wall-clock timestamps.
- **Missing values.** A pandas column with missing values is a sequence of `Cell = NaN | Num(real)`. A row keeps its input position as its `index`, just as the DataFrame index survives `dropna`.
- **Rows kept by `create_lag_feat`.** The contract of `Features.CreateLagFeatures` states that the rows are exactly positions 24 .. n-25, in order. Each row equals an independently stated reference row:
  - the lag is the field 24 rows back,
  - the rolling mean is the mean of the 24-row trailing window,
  - the target is the moisture 24 rows ahead.

  Row membership, ascending order, the kept count of max(n-48, 0) and kept plus dropped equal to n are corollaries.
- **Rolling mean.** `Features.RollingMeanOnline` computes the rolling mean in one pass with a running sum, as pandas does. It is proved equal to the windowed-mean definition.

Edge cases of the code that the model keeps:

- **Unknown frequency.** The frequency test has no error branch: any frequency other than `'15min'` yields `days*24` samples (gen_training_data.py:8-13).
- **Prediction of exactly 40.** It fails `< 40` and `> 70`, so it reaches the final `else` and is OPTIMAL (predict_demo.py:52,61,70).

Constants of the code:

- The lag, rolling and horizon windows are all the constant 24 (train_model.py:16-25).
- gen_training_data.py:25 calls `np.random.seed(42)` before the first draw.

The windows count samples, not hours. For a 15-minute series, the `*_24h` features therefore span 6 hours. The trainer is only fed the hourly table that the generator's `main` writes.

## Model

| member | source | states |
|---|---|---|
| Numerics.Clamp | ml_pipeline/gen_training_data.py:45-47 | the result lies in [lo, hi], equals x when x is already in range, and saturates at the violated bound otherwise |
| Numerics.MeanBounds | ml_pipeline/train_model.py:21-22 | a mean of values in [lo, hi] lies in [lo, hi] |
| Numerics.NearestEven | ml_pipeline/gen_training_data.py:98-101 | the result is the floor or the floor plus one, within 0.5 of y, y itself when y is whole, and even on a tie |
| Numerics.Round1 | ml_pipeline/gen_training_data.py:98-100 | `round(1)` yields a whole number of tenths within 0.05 of its input |
| Numerics.Round2 | ml_pipeline/gen_training_data.py:101 | `round(2)` yields a whole number of hundredths within 0.005 of its input |
| Numerics.Round1KeepsBounds | ml_pipeline/gen_training_data.py:98-100 | rounding to tenths a value clamped into an interval with whole-tenth end points keeps it in that interval |
| Numerics.Round2KeepsBounds | ml_pipeline/gen_training_data.py:101 | the same for hundredths (pH bounds 5.00 and 8.00) |
| Simulator.Periods | ml_pipeline/gen_training_data.py:8-13 | `'15min'` gives days*96 samples; `'h'` and every unknown frequency give days*24 |
| Simulator.RawMoisture | ml_pipeline/gen_training_data.py:29-45 | no contract of its own: base 45, cycle, drift and noise; MoistureColumn states how it is clamped |
| Simulator.RawTemp | ml_pipeline/gen_training_data.py:56-62 | no contract of its own: 25 + 8 times the cycle, plus noise; TempColumn states how it is clamped |
| Simulator.RawHumidity | ml_pipeline/gen_training_data.py:69-78 | no contract of its own: 60 minus half the excess over 25 degrees, plus noise; HumidityColumn and HumidityUsesClampedTemp state how it is used |
| Simulator.RawPH | ml_pipeline/gen_training_data.py:83 | no contract of its own: normal(6.5, 0.3) as a draw; PHColumn states how it is clipped |
| Simulator.MoistureColumn | ml_pipeline/gen_training_data.py:29-47 | one value per sample, each in [15, 85]; an in-range raw moisture (base 45, cycle, drift -0.02 per sample, noise) is kept unchanged; one below 15 becomes 15 and one above 85 becomes 85 |
| Simulator.TempColumn | ml_pipeline/gen_training_data.py:50-63 | one value per sample, each in [15, 40]; an in-range raw temperature is kept unchanged; one below 15 becomes 15 and one above 40 becomes 40 |
| Simulator.HumidityColumn | ml_pipeline/gen_training_data.py:66-79 | one value per temperature, each in [20, 95]; an in-range raw humidity is kept unchanged; one below 20 becomes 20 and one above 95 becomes 95; it reads the given (clamped) temperature list |
| Simulator.PHColumn | ml_pipeline/gen_training_data.py:83-86 | one value per sample, each in [5.0, 8.0]; an in-range draw is kept unchanged; one below 5.0 becomes 5.0 and one above 8.0 becomes 8.0 |
| Simulator.RoundedReadingInRange | ml_pipeline/gen_training_data.py:98-101 | clamped fields stay within their bounds after rounding |
| Simulator.GenSyntheticSensorData | ml_pipeline/gen_training_data.py:7-103 | the table has one reading per period; every field is in bounds; every moisture, temperature and humidity is a whole number of tenths and every pH a whole number of hundredths, each within half a rounding unit of its clamped value, so the table is the clamped values rounded; humidity tracks the clamped temperature list |
| Simulator.DrawsAreSequential | ml_pipeline/gen_training_data.py:41-83 | the four passes use disjoint, increasing stretches of the draw stream: moisture, then temperature, then humidity, then pH |
| Simulator.HumidityUsesClampedTemp | ml_pipeline/gen_training_data.py:72-79 | a sample whose raw temperature is above 40 (below 15) gets the humidity of a 40-degree (15-degree) sample |
| Features.Shift | ml_pipeline/train_model.py:16-18 | `shift(k)` keeps the length; row i holds a value iff row i-k exists, and then that row's value (the target at line 25 is `shift(-24)`) |
| Features.RollingMean | ml_pipeline/train_model.py:21-22 | `rolling(w).mean()` keeps the length and is NaN exactly at the first w-1 rows; RollingMeanOnline and EngineeredRow state its values |
| Features.Engineer | ml_pipeline/train_model.py:16-25 | no contract of its own: EngineeredRow and EngineeredTable state each row |
| Features.EngineeredTable | ml_pipeline/train_model.py:16-25 | every row of the engineered table is complete iff it is kept, and then equals the reference row |
| Features.DropNa | ml_pipeline/train_model.py:28 | `dropna()` returns no more rows than it is given, and each is the cleaned form of a complete input row; DropNaKeepsComplete and DropNaInOrder give the converse and the order |
| Features.DropNaKeepsComplete | ml_pipeline/train_model.py:28 | for any table, every complete row appears, cleaned, in the result of `dropna` |
| Features.DropNaInOrder | ml_pipeline/train_model.py:28 | for any table with ascending indices, the rows `dropna` keeps have ascending indices |
| Features.CountIncomplete | ml_pipeline/train_model.py:31 | the dropped count is at most the row count, and zero iff every row is complete |
| Features.RollingMeanOnline | ml_pipeline/train_model.py:21-22 | the one-pass running-sum rolling mean equals the mean of rows i-w+1..i from row w-1 on, and NaN before it |
| Features.EngineeredRow | ml_pipeline/train_model.py:16-25 | row i of the engineered table has no NaN iff 24 <= i and i+24 < n; it then carries the reference lag, trailing mean and target |
| Features.CreateLagFeatures | ml_pipeline/train_model.py:10-33 | the result has max(n-48, 0) rows; row k is source row k+24, with lags from row k, trailing means over rows k+1..k+24 and target from row k+48, each equal to the separately stated reference row |
| Features.DropNaMiddleBlock | ml_pipeline/train_model.py:28 | when the complete rows are exactly rows 24 .. n-25, `dropna` returns max(n-48, 0) rows, row k being row k+24 |
| Features.KeptRowsIff | ml_pipeline/train_model.py:16-28 | source row i appears in the result iff 24 <= i and i+24 < n (both directions) |
| Features.KeptRowsAscending | ml_pipeline/train_model.py:28 | the kept rows are in strictly ascending index order, so none is duplicated |
| Features.DropNaConserves | ml_pipeline/train_model.py:28-31 | for any table, rows kept by `dropna` plus rows dropped equal the row count |
| Features.KeptPlusDropped | ml_pipeline/train_model.py:28-31 | kept plus dropped is n, and exactly n - max(n-48, 0) rows are dropped |
| Features.RollingSubsumedByLag | ml_pipeline/train_model.py:16-22 | wherever the 24-row lag exists, both 24-row rolling means exist, so a row is complete iff its lag and target exist |
| Features.FeatureRowsInRange | ml_pipeline/train_model.py:16-25 | from in-range readings, every lag, trailing mean, pH and target of a kept row lies within its field's bounds |
| Features.ColumnValue | ml_pipeline/train_model.py:69-70 | a name yields a value iff it is one of the table's ten numeric columns; None for any other name, the timestamp column included, since it is not modelled |
| Features.Select | ml_pipeline/train_model.py:69 | selecting columns by name succeeds iff every name is a column; the values then come in the order the names are given |
| Features.FeatureVectorOrder | ml_pipeline/train_model.py:60-69 | the feature vector is exactly moisture lag, temperature lag, humidity lag, moisture mean, temperature mean, pH, in that order |
| Features.TrainingData | ml_pipeline/train_model.py:69-70 | one design row and one target per kept row; each design row is the by-name selection of the six feature columns, each target the `moisture_next_day` column |
| Features.Direction | ml_pipeline/train_model.py:119 | the label is "increases" iff the coefficient is positive, so zero reads "decreases" |
| Features.Importance | ml_pipeline/train_model.py:118-120 | pairing names with coefficients stops at the shorter list; each entry keeps its name and coefficient and is labelled by the coefficient's sign |
| Irrigation.GenRecommendation | ml_pipeline/predict_demo.py:43-77 | below 30 is CRITICAL, [30, 40) WARNING, [40, 70] OPTIMAL, above 70 HIGH, and the printed status label (with its coloured marker) names that band; immediate irrigation iff CRITICAL, "MONITOR CLOSELY" iff WARNING, "NO IRRIGATION NEEDED" iff HIGH or OPTIMAL; the details and the reason line each single out the band, including HIGH's reason "Moisture levels are optimal" |
| Irrigation.StatusLabel | ml_pipeline/predict_demo.py:44-71 | no contract of its own: GenRecommendation states which label is printed for each band |
| Irrigation.BandsPartition | ml_pipeline/predict_demo.py:43-77 | every real prediction falls in exactly one band, so the chain is total |
| Irrigation.OnlyPredictionMatters | ml_pipeline/predict_demo.py:28-77 | the current moisture and temperature do not affect the recommendation |
| Irrigation.StatusMonotone | ml_pipeline/predict_demo.py:43-71 | a larger prediction never gives a lower status in CRITICAL < WARNING < OPTIMAL < HIGH |
| Irrigation.BoundaryValues | ml_pipeline/predict_demo.py:43-73 | 29.9 is CRITICAL, 30 and 39.9 are WARNING, 40 and 70 are OPTIMAL, 70.1 is HIGH |
| Pipeline.MonthOfHourlyReadings | ml_pipeline/gen_training_data.py:112 | the default 30-day hourly run gives 720 readings and 672 training rows, whatever the noise |
| Pipeline.SimulatedRowCount | ml_pipeline/train_model.py:28-31 | a simulated series of n readings yields max(n-48, 0) training rows |
| Pipeline.SimulatedFeaturesInRange | ml_pipeline/gen_training_data.py:45-86 | every training row built from simulated readings has its features and target within the sensor bounds |

## Left out

- Random draws and `np.random.seed(42)` (gen_training_data.py:25,41,59,75,83): the generator is replaced by its stream of standard-normal values, passed in as `draws`. The values themselves are not modelled.
- `np.sin` and `np.pi` (gen_training_data.py:35,56): floating-point transcendental functions of the timestamp's hour. They are passed in as `cycle`.
- Timestamps (`pd.date_range(end=datetime.now())`, gen_training_data.py:18-22): they depend on the wall clock. A series is an ordered sequence without a timestamp column.
- Floating point: all arithmetic is on exact reals. Rounding is exact round-half-to-even of the real value, without the binary error of scaling by 10 or 100.
- Simulator.Periods: takes a natural day count. pandas' handling of a negative period count and of a frequency string it rejects lies outside this code.
- Simulator.GenSyntheticSensorData: a frequency string that `pd.date_range` rejects (gen_training_data.py:18-22) raises there in the code; the model, which has no timestamps, returns a table of days*24 readings for it instead.
- Missing values in the loaded table: the series is assumed complete, as the generator writes it. Only the missing values created by `shift` and `rolling` are modelled.
- CSV and joblib persistence and the file-existence checks (train_model.py:44-51,124-135; predict_demo.py:6-16; gen_training_data.py:128-132): I/O.
- Sorting the loaded table by timestamp (train_model.py:52-53): series are modelled as already in time order.
- `train_test_split`, `LinearRegression` fitting and prediction, `mean_absolute_error` and `r2_score` (train_model.py:77-101; predict_demo.py:18-26): library internals that are not part of this model. The model's coefficients enter `Features.Importance` as an input.
- Console output, including the quality messages keyed on the test error (train_model.py:109-114) and every `main` entry point. The demo's fixed readings are not modelled either.

