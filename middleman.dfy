/**
 * `TransactionAnalyzer`: holds the transaction frame and, in one call, adds the
 * derived columns to it and returns the model input.
 */
module Middleman {
  import opened Frames
  import opened Ordering
  import opened Shift
  import opened Derive

  /**
   * The analyzer's data frame: the transaction rows in their current order and the
   * columns get_features_for_model adds to it, one entry per row (empty until then).
   */
  datatype DataFrame = DataFrame(
    rows: seq<Transaction>,
    prevAmount: seq<Option<real>>,
    priceChange: seq<Float>,
    prevDate: seq<Option<Timestamp>>,
    daysSinceLast: seq<Option<int>>,
    frequencyInferred: seq<Frequency>,
    incomeBracket: seq<Bracket>)

  class TransactionAnalyzer {
    var df: DataFrame

    /** The analyzer over an already parsed transaction log. */
    constructor(rows: seq<Transaction>)
      ensures df == DataFrame(rows, [], [], [], [], [], [])
    {
      df := DataFrame(rows, [], [], [], [], [], []);
    }

    /**
     * Sorts the frame, adds the derived columns to it and returns the model input.
     * `draw(i)` is the bracket of the i-th draw from the seeded generator.
     */
    method GetFeaturesForModel(draw: nat -> Bracket) returns (modelInput: seq<ModelInput>)
      modifies this
      ensures df.rows == SortRows(old(df.rows))
      ensures Sorted(df.rows) && multiset(df.rows) == multiset(old(df.rows))
      ensures df.prevAmount == Shifted(Groups(df.rows), Amounts(df.rows))
      ensures df.priceChange == FillNaColumn(RawPriceChangeColumn(Amounts(df.rows), df.prevAmount))
      ensures df.prevDate == Shifted(Groups(df.rows), Timestamps(df.rows))
      ensures df.daysSinceLast == DaysColumn(Timestamps(df.rows), df.prevDate)
      ensures df.frequencyInferred == FrequencyColumn(df.daysSinceLast)
      ensures df.incomeBracket == BracketColumn(UserIds(df.rows), IncomeMapOf(Unique(UserIds(df.rows)), draw))
      ensures modelInput == Features(old(df.rows), draw)
    {
      // sort_values(['user_id', 'merchant', 'timestamp'])
      SortRowsSorted(df.rows);
      df := df.(rows := SortRows(df.rows));
      // prev_amount, price_change, fillna(0)
      var prevAmount := GroupShift(Groups(df.rows), Amounts(df.rows));
      df := df.(prevAmount := prevAmount);
      df := df.(priceChange := RawPriceChangeColumn(Amounts(df.rows), df.prevAmount));
      df := df.(priceChange := FillNaColumn(df.priceChange));
      // prev_date, days_since_last, frequency_inferred
      var prevDate := GroupShift(Groups(df.rows), Timestamps(df.rows));
      df := df.(prevDate := prevDate);
      df := df.(daysSinceLast := DaysColumn(Timestamps(df.rows), df.prevDate));
      df := df.(frequencyInferred := FrequencyColumn(df.daysSinceLast));
      // one bracket per distinct user, mapped onto that user's rows
      var users := Unique(UserIds(df.rows));
      var incomeMap := IncomeMap(users, draw);
      df := df.(incomeBracket := BracketColumn(UserIds(df.rows), incomeMap));
      // the seven output columns, renamed
      modelInput := Project(df.rows, df.frequencyInferred, df.priceChange, df.incomeBracket);
    }
  }
}
