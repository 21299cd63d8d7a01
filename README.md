# Transaction feature deriver

A Dafny model of the feature deriver in `governance/middleman.py`. The
`TransactionAnalyzer` class holds a data frame of transaction rows. Its
`get_features_for_model` turns that batch into model-input rows, in five steps:

1. It sorts the frame by (user_id, merchant, timestamp).
2. It shifts `amount` and `timestamp` by one row within each (user_id, merchant) group.
   From them it derives the relative price change, filling NaN with 0.
3. It derives the whole-day gap since the group's previous transaction.
   `_infer_freq` turns the gap into a frequency band (`First_Txn`, `Monthly`, `Weekly`,
   `Annually`, `Irregular`).
4. It draws one income bracket (`High`/`Low`) per distinct user from a seeded generator
   and maps it onto that user's rows.
5. It keeps seven columns, renamed `Transaction_ID, Description, Amount, Frequency,
   Price_Change_Pct, Income_Bracket, Category`.

Layout:

- `frames.dfy` (module `Frames`): the row and cell types and the whole-column helpers.
  - A price-change cell is a `Float`: a finite value, NaN or a signed infinity.
  - A gap is split into whole days by `WholeDays`.
- `ordering.dfy` (module `Ordering`):
  - the (user_id, merchant, timestamp) order, with strings compared by code point as Python does;
  - `SortRows`, a sort that produces that order;
  - proofs that the sort gives a sorted permutation.
- `shift.dfy` (module `Shift`): `groupby(...).shift(1)`.
  - `Shifted` is its specification: the value of the last earlier row of the same group.
  - `GroupShift` is the one-pass scan that remembers the last value seen per group.
  - In a sorted frame, that earlier row is the row just above, when that row is in the same group.
- `derive.dfy` (module `Derive`): one function per derived column and `_infer_freq`.
  - The income map is both a comprehension and the loop that fills it.
  - `ModelInputOf` computes, for a frame in its current order, the shifts, the derived columns, the income map and the projection. Sorting is left to its caller.
  - `Features` (sort, then `ModelInputOf`) is the whole transform as a function.
- `properties.dfy` (module `FeatureProperties`): what the transform promises about its output rows.
- `middleman.dfy` (module `Middleman`): the `TransactionAnalyzer` class.
  - Its field `df` is the data frame: the rows plus the columns added to it.
  - `GetFeaturesForModel` sorts the frame in place, adds each column in turn and returns the model input.
  - Its contract ties the final frame and the result to the functions above.

Modelling choices:

- Timestamps are whole seconds (`int`), amounts are `real`, and keys are strings.
- The generator's i-th draw is the parameter `draw(i)`.
- A zero previous amount does not always give a price change of 0 (governance/middleman.py:18-20):
  - `fillna(0)` replaces only NaN;
  - `0/0` is NaN and so becomes 0;
  - `x/0` with `x != 0` stays an infinity of the sign of `x`.
  The model states this in `RawPriceChange`, `FillNa` and `PriceChangeCases`.

## Model

| member | source | states |
|---|---|---|
| Frames.ModelInput.Cells | governance/middleman.py:34-48 | a written row has one cell per header column, and the cell under each renamed header is the matching field, the frequency and bracket written as their labels |
| Frames.LabelsDistinct | governance/middleman.py:53-57 | distinct frequencies, and distinct brackets, are written as distinct labels |
| Frames.WholeDays | governance/middleman.py:24 | `.dt.days` of a gap of `s` seconds is the whole number of days `d` with `d*86400 <= s < (d+1)*86400`, i.e. the floor, also for negative gaps |
| Ordering.KeyLeTotal | governance/middleman.py:14 | any two string keys are comparable in code-point order |
| Ordering.KeyLeAntisymmetric | governance/middleman.py:14 | two keys each not above the other are equal |
| Ordering.KeyLeTransitive | governance/middleman.py:14 | code-point order on keys is transitive |
| Ordering.RowLeTotal | governance/middleman.py:14 | any two rows are comparable by (user_id, merchant, timestamp) |
| Ordering.RowLeTransitive | governance/middleman.py:14 | the (user_id, merchant, timestamp) order is transitive |
| Ordering.GroupBetween | governance/middleman.py:14 | a row sorting between two rows of one (user_id, merchant) group belongs to that group, so groups are contiguous once sorted |
| Ordering.Insert | governance/middleman.py:14 | inserting a row adds exactly that row: one longer, multiset grows by that row |
| Ordering.InsertSorted | governance/middleman.py:14 | inserting into a sorted frame keeps it sorted |
| Ordering.SortRows | governance/middleman.py:14 | the sort keeps the row count and the multiset of rows (a permutation) |
| Ordering.SortRowsSorted | governance/middleman.py:14 | the sorted frame is non-decreasing in (user_id, merchant, timestamp) for every pair of positions |
| Shift.LastIndexOf | governance/middleman.py:17 | the found row is before the bound and has the key, no row between it and the bound has the key, and nothing is found only when no earlier row has the key |
| Shift.Shifted | governance/middleman.py:17 | the shifted column has one cell per row, and cell i is the value of the last earlier row with row i's key, or missing |
| Shift.ShiftedMeaning | governance/middleman.py:17 | a shifted cell is missing exactly when no earlier row is in the same group; otherwise it is the value of the nearest earlier row of that group |
| Shift.GroupShift | governance/middleman.py:23 | the one-pass scan with a per-group map of last values yields exactly the specified shifted column |
| Shift.SortedPrevious | governance/middleman.py:17 | in a sorted frame the previous row of a row's group is the row just above it if that row is in the same group, and there is none otherwise |
| Derive.RawPriceChange | governance/middleman.py:18 | the division is NaN exactly without a previous amount or for 0/0; a finite result `r` satisfies `p*(1+r) == amount` for a non-zero previous amount `p`; an infinity arises only from a non-zero amount over a zero previous amount, with the amount's sign |
| Derive.FillNa | governance/middleman.py:20 | `fillna(0)` never leaves NaN; NaN becomes 0 and every other cell is kept |
| Derive.PriceChangeCases | governance/middleman.py:18-20 | after `fillna(0)` a price change is never NaN; it is 0 without a previous amount; for a non-zero previous amount `p` it is the relative change `r` with `p*(1+r) == amount`; for a zero previous amount it is 0 exactly when the amount is 0, else an infinity of the amount's sign |
| Derive.RawPriceChangeColumn | governance/middleman.py:18 | the column has one cell per row and cell i is the price change of row i's amount against row i's previous amount |
| Derive.FillNaColumn | governance/middleman.py:20 | `fillna(0)` keeps the length and acts on each cell alone |
| Derive.DaysSinceLast | governance/middleman.py:24 | the gap is missing exactly when the previous date is; it is the floor of the gap in days; it is non-negative exactly when the previous date is not later |
| Derive.DaysColumn | governance/middleman.py:24 | one gap per row, computed from that row's timestamp and previous date |
| Derive.InferFreq | governance/middleman.py:52-57 | `First_Txn` is returned exactly for a missing gap |
| Derive.InferFreqBands | governance/middleman.py:52-57 | for a defined gap, each band holds exactly its inclusive day range (25-35 Monthly, 6-8 Weekly, 360-370 Annually) and `Irregular` holds exactly the rest |
| Derive.InferFreqBoundaries | governance/middleman.py:52-57 | the edge values 5/6, 8/9, 24/25, 35/36, 359/360, 370/371 fall into the bands on each side |
| Derive.FrequencyColumn | governance/middleman.py:25 | `apply(_infer_freq)` maps each gap to its band, row by row |
| Derive.Unique | governance/middleman.py:29 | `unique()` holds exactly the values of its input, each once, and is no longer |
| Derive.UniqueFirstSeen | governance/middleman.py:29 | a value's first appearance extends the unique list by that value at its end: values appear in first-seen order |
| Derive.IncomeMapOf | governance/middleman.py:30 | the map's keys are exactly the distinct users and the i-th user gets the i-th draw |
| Derive.IncomeMap | governance/middleman.py:28-30 | the loop over the users, one draw each, builds that same map |
| Derive.BracketColumn | governance/middleman.py:31 | `user_id.map(income_map)` gives each row the bracket of its own user |
| Derive.Project | governance/middleman.py:34-48 | one output row per frame row, holding that row's id, description, amount, frequency, price change, bracket and category in the output column order |
| Derive.ModelInputOf | governance/middleman.py:17-48 | on a frame in its current order, one output row per frame row, carrying that row's id, description, amount and category (its derived cells: FeatureProperties.ModelInputAt) |
| Derive.Features | governance/middleman.py:9-50 | the transform returns exactly one row per input row |
| FeatureProperties.ModelInputAt | governance/middleman.py:34-48 | output row k is frame row k's passed-through cells with the frequency and price change of its own group's previous row and its user's bracket |
| FeatureProperties.CellsFirst | governance/middleman.py:53 | a row with no previous row in its group gets `First_Txn` and price change 0 |
| FeatureProperties.CellsAfter | governance/middleman.py:18-25 | after a previous row that is not later, the gap is a non-negative whole-day count that decides a band other than `First_Txn`; the price change is relative to the previous amount, or 0 or an infinity when that amount is 0 |
| FeatureProperties.SortedShiftedColumns | governance/middleman.py:17-23 | in a sorted frame the previous amount and date of a row are those of the row just above it when that row is in the same group, missing otherwise; that row is not later |
| FeatureProperties.SortedCells | governance/middleman.py:14-25 | in a sorted frame a row is `First_Txn` exactly when it opens its group, then with price change 0; any other row has a non-negative gap from the row above that decides its frequency, and a price change relative to that row's amount |
| FeatureProperties.SortedFirstIsEarliest | governance/middleman.py:14 | in a sorted frame the first row of a group is no later than any row of that group |
| FeatureProperties.ModelInputPassesThrough | governance/middleman.py:34-48 | the id, description, amount and category of every output row are those of the frame row in the same position |
| FeatureProperties.ModelInputIncome | governance/middleman.py:28-31 | rows of one user get the same bracket, and it is the draw at that user's position among the distinct users |
| FeatureProperties.FeaturesKeepsRows | governance/middleman.py:14-50 | one output row per input row; the sorted frame is sorted and a permutation of the input; each output row carries the passed-through cells of the sorted row in its position |
| FeatureProperties.FeaturesFirstOfGroup | governance/middleman.py:14-25 | an output row is `First_Txn` exactly when its row opens its group in the sorted frame; such a row has price change 0 and no row of its group in the input is earlier |
| FeatureProperties.SortedFollowing | governance/middleman.py:14-25 | in a sorted frame a row following one of its own group is not earlier than it, its whole-day gap is non-negative and decides its non-`First_Txn` band, and its price change is relative to that row's amount (0 or an infinity after a zero amount) |
| FeatureProperties.FeaturesIncome | governance/middleman.py:28-31 | in the transform's output all rows of one user share one bracket, the draw at that user's first-seen position |
| FeatureProperties.SortTwo | governance/middleman.py:14 | two rows of one group given later-first come out of the sort earlier-first, and that pair is sorted |
| FeatureProperties.TwoMonthlyRows | governance/middleman.py:14-57 | for two rows of one user and merchant 30 days apart, with amounts 100 then 110, given later-first: the output lists the earlier row first as `First_Txn` with price change 0, then the later row as `Monthly` with price change 0.1 |
| Middleman.TransactionAnalyzer.constructor | governance/middleman.py:5-7 | the analyzer holds the given rows and no derived column yet |
| Middleman.TransactionAnalyzer.GetFeaturesForModel | governance/middleman.py:9-50 | `df` ends sorted and a permutation of its old rows; each added column is the specified column of the sorted rows (shifts, filled price change, gaps, frequencies, brackets from one draw per distinct user); the result is the transform `Features` of the old rows |

## Left out

- Reading the CSV file and parsing timestamps (governance/middleman.py:6-7) are not modelled. The constructor takes rows whose timestamps are already whole seconds, and only the columns the deriver reads.
- The test block that writes the CSV file (governance/middleman.py:59-65) is not modelled.
- `np.random.seed(42)` and `np.random.choice` (governance/middleman.py:28, 30) are not modelled. The draws are the parameter `draw`, so the model proves one draw per distinct user in first-seen order and per-user consistency, not the values NumPy produces.
- Float64 arithmetic is not modelled. Amounts and price changes are exact reals. `Float` only keeps the NaN and infinity outcomes of division.
- Sub-second timestamp precision is not modelled.
- Null `user_id` or `merchant` keys are not modelled. Pandas drops such rows from the grouping, and every key here is a present string.
- `user_id` values are compared as strings. A numeric `user_id` column, ordered by value, is not modelled.
- Ordering.SortRows: rows with equal (user_id, merchant, timestamp) keep their input order by construction, but no lemma states stability. The proved facts are only sortedness and permutation.
- FeatureProperties.SortedFollowing: it is stated for any sorted frame given to `ModelInputOf`, not directly on `Features(rows, draw)`. `Features` applies `ModelInputOf` to `SortRows(rows)`, which FeaturesKeepsRows shows is sorted.
- FeatureProperties.FeaturesKeepsRows: the passed-through cells are related to the sorted rows position by position. That the output is a permutation of the input's passed-through cells follows from the sort being a permutation, but is not stated as a multiset equality.
- Middleman.TransactionAnalyzer.GetFeaturesForModel: the columns are kept as separate sequences beside the rows. Pandas' column dtypes are not modelled, such as the float `days_since_last` with NaN for a missing gap; here that is `Option<int>`.
