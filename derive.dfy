/**
 * The derived columns of the feature deriver, one function per column, and the
 * whole transform `Features` that composes them.
 */
module Derive {
  import opened Frames
  import opened Ordering
  import opened Shift

  // ---- Price change ----

  /**
   * `(amount - prev_amount) / prev_amount` under float64 rules: a missing previous
   * amount propagates as NaN, 0/0 is NaN and x/0 is an infinity of the sign of x.
   */
  function RawPriceChange(amount: real, prev: Option<real>): (r: Float)
    ensures r.NaN? <==> prev.None? || (prev.value == 0.0 && amount == 0.0)
    ensures r.Num? ==> prev.Some? && prev.value != 0.0 && prev.value * (1.0 + r.x) == amount
    ensures r.Inf? ==> prev.Some? && prev.value == 0.0 && amount != 0.0 && r.negative == (amount < 0.0)
  {
    match prev
    case None => NaN
    case Some(p) =>
      if p != 0.0 then
        var x := (amount - p) / p;
        assert p * x == amount - p;
        Num(x)
      else if amount == 0.0 then NaN
      else Inf(amount < 0.0)
  }

  /** `fillna(0)`: a NaN cell becomes 0 and every other cell is kept as it is. */
  function FillNa(v: Float): (r: Float)
    ensures !r.NaN?
    ensures v.NaN? ==> r == Num(0.0)
    ensures !v.NaN? ==> r == v
  {
    if v.NaN? then Num(0.0) else v
  }

  /**
   * The price change a row ends up with: never NaN; 0 without a previous amount; the
   * relative change from a non-zero previous amount (so the amount is recovered from
   * it); and after a zero previous amount, 0 only when the amount is 0 too, an
   * infinity otherwise.
   */
  lemma PriceChangeCases(amount: real, prev: Option<real>)
    ensures !FillNa(RawPriceChange(amount, prev)).NaN?
    ensures prev.None? ==> FillNa(RawPriceChange(amount, prev)) == Num(0.0)
    ensures prev.Some? && prev.value != 0.0 ==>
      var r := FillNa(RawPriceChange(amount, prev));
      r.Num? && prev.value * (1.0 + r.x) == amount
    ensures prev.Some? && prev.value == 0.0 ==>
      (FillNa(RawPriceChange(amount, prev)) == Num(0.0) <==> amount == 0.0) &&
      (amount != 0.0 ==> FillNa(RawPriceChange(amount, prev)) == Inf(amount < 0.0))
  {
  }

  function RawPriceChangeColumn(amounts: seq<real>, prev: seq<Option<real>>): (r: seq<Float>)
    requires |amounts| == |prev|
    ensures |r| == |amounts| && forall i {:trigger r[i]} :: 0 <= i < |r| ==> r[i] == RawPriceChange(amounts[i], prev[i])
  {
    if amounts == [] then []
    else [RawPriceChange(amounts[0], prev[0])] + RawPriceChangeColumn(amounts[1..], prev[1..])
  }

  function FillNaColumn(col: seq<Float>): (r: seq<Float>)
    ensures |r| == |col| && forall i {:trigger r[i]} :: 0 <= i < |r| ==> r[i] == FillNa(col[i])
  {
    if col == [] then [] else [FillNa(col[0])] + FillNaColumn(col[1..])
  }

  // ---- Days since last and frequency ----

  /** `(timestamp - prev_date).dt.days`: the whole days of the gap, rounded down. */
  function DaysSinceLast(t: Timestamp, prev: Option<Timestamp>): (r: Option<int>)
    ensures r.None? <==> prev.None?
    ensures r.Some? ==>
      r.value * 86400 <= t - prev.value < (r.value + 1) * 86400
    ensures r.Some? ==> (r.value >= 0 <==> t >= prev.value)
  {
    match prev
    case None => None
    case Some(p) => Some(WholeDays(t - p))
  }

  function DaysColumn(ts: seq<Timestamp>, prev: seq<Option<Timestamp>>): (r: seq<Option<int>>)
    requires |ts| == |prev|
    ensures |r| == |ts| && forall i {:trigger r[i]} :: 0 <= i < |r| ==> r[i] == DaysSinceLast(ts[i], prev[i])
  {
    if ts == [] then [] else [DaysSinceLast(ts[0], prev[0])] + DaysColumn(ts[1..], prev[1..])
  }

  /** `_infer_freq`: the inclusive bands, tried in this order. */
  function InferFreq(days: Option<int>): (r: Frequency)
    ensures r == FirstTxn <==> days.None?
  {
    if days.None? then FirstTxn
    else if 25 <= days.value <= 35 then Monthly
    else if 6 <= days.value <= 8 then Weekly
    else if 360 <= days.value <= 370 then Annually
    else Irregular
  }

  /** Each frequency of a defined gap corresponds to exactly one band of days. */
  lemma InferFreqBands(d: int)
    ensures InferFreq(Some(d)) != FirstTxn
    ensures InferFreq(Some(d)) == Monthly <==> 25 <= d <= 35
    ensures InferFreq(Some(d)) == Weekly <==> 6 <= d <= 8
    ensures InferFreq(Some(d)) == Annually <==> 360 <= d <= 370
    ensures InferFreq(Some(d)) == Irregular <==>
      d < 6 || 8 < d < 25 || 35 < d < 360 || 370 < d
  {
  }

  /** The edges of every band. */
  lemma InferFreqBoundaries()
    ensures InferFreq(None) == FirstTxn
    ensures InferFreq(Some(5)) == Irregular && InferFreq(Some(6)) == Weekly
    ensures InferFreq(Some(8)) == Weekly && InferFreq(Some(9)) == Irregular
    ensures InferFreq(Some(24)) == Irregular && InferFreq(Some(25)) == Monthly
    ensures InferFreq(Some(35)) == Monthly && InferFreq(Some(36)) == Irregular
    ensures InferFreq(Some(359)) == Irregular && InferFreq(Some(360)) == Annually
    ensures InferFreq(Some(370)) == Annually && InferFreq(Some(371)) == Irregular
  {
  }

  function FrequencyColumn(days: seq<Option<int>>): (r: seq<Frequency>)
    ensures |r| == |days| && forall i {:trigger r[i]} :: 0 <= i < |r| ==> r[i] == InferFreq(days[i])
  {
    if days == [] then [] else [InferFreq(days[0])] + FrequencyColumn(days[1..])
  }

  // ---- Income bracket ----

  predicate Distinct<T(==)>(s: seq<T>) {
    forall i, j :: 0 <= i < j < |s| ==> s[i] != s[j]
  }

  /** `unique()`: each value once, in the order of its first appearance. */
  function Unique(s: seq<Key>): (r: seq<Key>)
    ensures forall x :: x in r <==> x in s
    ensures Distinct(r)
    ensures |r| <= |s|
  {
    if s == [] then []
    else
      var u := Unique(s[..|s| - 1]);
      assert forall x :: x in s <==> x in s[..|s| - 1] || x == s[|s| - 1];
      if s[|s| - 1] in u then u else u + [s[|s| - 1]]
  }

  /** Where Unique places the first appearance of each value. */
  lemma {:induction false} UniqueFirstSeen(s: seq<Key>, j: nat)
    requires j < |s| && forall m :: 0 <= m < j ==> s[m] != s[j]
    ensures var u := Unique(s[..j + 1]);
      u == Unique(s[..j]) + [s[j]] && forall m :: 0 <= m < j ==> s[m] in Unique(s[..j])
  {
    assert s[..j + 1][..j] == s[..j];
    forall m | 0 <= m < j ensures s[m] in Unique(s[..j]) {
      assert s[..j][m] == s[m];
    }
    assert s[j] !in s[..j];
  }

  /**
   * `{u: np.random.choice(['High', 'Low']) for u in users}` with `draw(i)` the
   * outcome of the i-th draw after seeding.
   */
  function IncomeMapOf(users: seq<Key>, draw: nat -> Bracket): (m: map<Key, Bracket>)
    requires Distinct(users)
    ensures forall u :: u in m <==> u in users
    ensures forall i :: 0 <= i < |users| ==> m[users[i]] == draw(i)
  {
    map i | 0 <= i < |users| :: users[i] := draw(i)
  }

  /** The dictionary comprehension as the loop it runs: one draw per user, in order. */
  method IncomeMap(users: seq<Key>, draw: nat -> Bracket) returns (m: map<Key, Bracket>)
    requires Distinct(users)
    ensures forall u :: u in m <==> u in users
    ensures forall i :: 0 <= i < |users| ==> m[users[i]] == draw(i)
    ensures m == IncomeMapOf(users, draw)
  {
    m := map[];
    for i := 0 to |users|
      invariant forall u :: u in m <==> u in users[..i]
      invariant forall j :: 0 <= j < i ==> m[users[j]] == draw(j)
    {
      m := m[users[i] := draw(i)];
    }
    assert users[..|users|] == users;
  }

  /** `user_id.map(income_map)`. */
  function BracketColumn(users: seq<Key>, m: map<Key, Bracket>): (r: seq<Bracket>)
    requires forall i :: 0 <= i < |users| ==> users[i] in m
    ensures |r| == |users| && forall i {:trigger r[i]} :: 0 <= i < |r| ==> r[i] == m[users[i]]
  {
    if users == [] then [] else [m[users[0]]] + BracketColumn(users[1..], m)
  }

  // ---- Projection and the whole transform ----

  /** The seven output columns, renamed, of the sorted frame and its derived columns. */
  function Project(df: seq<Transaction>, freq: seq<Frequency>, priceChange: seq<Float>,
                   bracket: seq<Bracket>): (r: seq<ModelInput>)
    requires |freq| == |priceChange| == |bracket| == |df|
    ensures |r| == |df|
    ensures forall i {:trigger r[i]} :: 0 <= i < |df| ==>
      r[i] == ModelInput(df[i].transactionId, df[i].description, df[i].amount,
                         freq[i], priceChange[i], bracket[i], df[i].category)
  {
    if df == [] then []
    else
      [ModelInput(df[0].transactionId, df[0].description, df[0].amount,
                  freq[0], priceChange[0], bracket[0], df[0].category)]
      + Project(df[1..], freq[1..], priceChange[1..], bracket[1..])
  }

  /**
   * The model input of a frame already in (user_id, merchant, timestamp) order: the
   * shifts, the derived columns, the income map and the projection.
   */
  function ModelInputOf(df: seq<Transaction>, draw: nat -> Bracket): (r: seq<ModelInput>)
    ensures |r| == |df|
    ensures forall k {:trigger r[k]} :: 0 <= k < |df| ==>
      r[k].transactionId == df[k].transactionId && r[k].description == df[k].description &&
      r[k].amount == df[k].amount && r[k].category == df[k].category
  {
    var prevAmount := Shifted(Groups(df), Amounts(df));
    var priceChange := FillNaColumn(RawPriceChangeColumn(Amounts(df), prevAmount));
    var prevDate := Shifted(Groups(df), Timestamps(df));
    var days := DaysColumn(Timestamps(df), prevDate);
    var freq := FrequencyColumn(days);
    var incomeMap := IncomeMapOf(Unique(UserIds(df)), draw);
    var bracket := BracketColumn(UserIds(df), incomeMap);
    Project(df, freq, priceChange, bracket)
  }

  /** The model input derived from a batch of transactions: sort, then derive. */
  function Features(rows: seq<Transaction>, draw: nat -> Bracket): (r: seq<ModelInput>)
    ensures |r| == |rows|
  {
    ModelInputOf(SortRows(rows), draw)
  }
}
