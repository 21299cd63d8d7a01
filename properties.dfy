/** What the whole transform `Features` promises about its output rows. */
module FeatureProperties {
  import opened Frames
  import opened Ordering
  import opened Shift
  import opened Derive

  /** Row k of a frame opens its (user_id, merchant) group. */
  predicate FirstOfGroup(df: seq<Transaction>, k: nat)
    requires k < |df|
  {
    k == 0 || GroupOf(df[k - 1]) != GroupOf(df[k])
  }

  /** The cells an output row copies unchanged from its input row. */
  datatype Passthrough = Passthrough(transactionId: string, description: string, amount: real, category: string)

  function PassIn(t: Transaction): Passthrough {
    Passthrough(t.transactionId, t.description, t.amount, t.category)
  }

  function PassOut(m: ModelInput): Passthrough {
    Passthrough(m.transactionId, m.description, m.amount, m.category)
  }

  function PassIns(rows: seq<Transaction>): (r: seq<Passthrough>)
    ensures |r| == |rows| && forall i {:trigger r[i]} :: 0 <= i < |rows| ==> r[i] == PassIn(rows[i])
  {
    if rows == [] then [] else [PassIn(rows[0])] + PassIns(rows[1..])
  }

  function PassOuts(out: seq<ModelInput>): (r: seq<Passthrough>)
    ensures |r| == |out| && forall i {:trigger r[i]} :: 0 <= i < |out| ==> r[i] == PassOut(out[i])
  {
    if out == [] then [] else [PassOut(out[0])] + PassOuts(out[1..])
  }

  /** The frequency cell of row k of a frame in its current order. */
  function FrequencyAt(df: seq<Transaction>, k: nat): Frequency
    requires k < |df|
  {
    InferFreq(DaysSinceLast(df[k].timestamp, ShiftedAt(Groups(df), Timestamps(df), k)))
  }

  /** The price-change cell of row k of a frame in its current order. */
  function PriceChangeAt(df: seq<Transaction>, k: nat): Float
    requires k < |df|
  {
    FillNa(RawPriceChange(df[k].amount, ShiftedAt(Groups(df), Amounts(df), k)))
  }

  /**
   * Output row k is row k of the frame with its derived cells: the frequency of its
   * gap, its price change and its user's bracket.
   */
  lemma ModelInputAt(df: seq<Transaction>, draw: nat -> Bracket, k: nat)
    requires k < |df|
    ensures ModelInputOf(df, draw)[k] == ModelInput(
      df[k].transactionId, df[k].description, df[k].amount,
      FrequencyAt(df, k), PriceChangeAt(df, k),
      IncomeMapOf(Unique(UserIds(df)), draw)[UserIds(df)[k]],
      df[k].category)
  {
    assert UserIds(df)[k] == df[k].userId;
  }

  /** The derived cells of row `t` when its group has no earlier row. */
  lemma CellsFirst(t: Transaction)
    ensures InferFreq(DaysSinceLast(t.timestamp, None)) == FirstTxn
    ensures FillNa(RawPriceChange(t.amount, None)) == Num(0.0)
  {
  }

  /**
   * The derived cells of row `t` when `p` is the previous row of its group and not
   * later than it.
   */
  lemma CellsAfter(t: Transaction, p: Transaction)
    requires p.timestamp <= t.timestamp
    ensures var days := WholeDays(t.timestamp - p.timestamp);
      var freq := InferFreq(DaysSinceLast(t.timestamp, Some(p.timestamp)));
      var change := FillNa(RawPriceChange(t.amount, Some(p.amount)));
      days >= 0 && freq == InferFreq(Some(days)) && freq != FirstTxn &&
      (p.amount != 0.0 ==> change == Num((t.amount - p.amount) / p.amount)) &&
      (p.amount == 0.0 ==> change == if t.amount == 0.0 then Num(0.0) else Inf(t.amount < 0.0))
  {
  }

  /**
   * In a sorted frame, the shifted `amount` and `timestamp` of a row are those of the
   * row just above it when that row is in the same group, and missing otherwise.
   */
  lemma SortedShiftedColumns(df: seq<Transaction>, k: nat)
    requires Sorted(df) && k < |df|
    ensures ShiftedAt(Groups(df), Amounts(df), k) ==
      if FirstOfGroup(df, k) then None else Some(df[k - 1].amount)
    ensures ShiftedAt(Groups(df), Timestamps(df), k) ==
      if FirstOfGroup(df, k) then None else Some(df[k - 1].timestamp)
    ensures !FirstOfGroup(df, k) ==> df[k - 1].timestamp <= df[k].timestamp
  {
    SortedPrevious(df, k);
    if k > 0 {
      assert RowLe(df[k - 1], df[k]);
    }
  }

  /**
   * The derived cells of row k of a sorted frame, against the row just above it: the
   * first row of a group is First_Txn with price change 0; a row that follows one of
   * its group is not earlier than it, has a non-negative whole-day gap that decides
   * its frequency, and a price change relative to that row's amount.
   */
  lemma SortedCells(df: seq<Transaction>, k: nat)
    requires Sorted(df) && k < |df|
    ensures (FrequencyAt(df, k) == FirstTxn <==> FirstOfGroup(df, k)) &&
      (FirstOfGroup(df, k) ==> PriceChangeAt(df, k) == Num(0.0))
    ensures !FirstOfGroup(df, k) ==>
        var p := df[k - 1];
        var days := WholeDays(df[k].timestamp - p.timestamp);
        p.timestamp <= df[k].timestamp && days >= 0 &&
        FrequencyAt(df, k) == InferFreq(Some(days)) &&
        (p.amount != 0.0 ==> PriceChangeAt(df, k) == Num((df[k].amount - p.amount) / p.amount)) &&
        (p.amount == 0.0 ==>
          PriceChangeAt(df, k) == if df[k].amount == 0.0 then Num(0.0) else Inf(df[k].amount < 0.0))
  {
    SortedShiftedColumns(df, k);
    if FirstOfGroup(df, k) {
      CellsFirst(df[k]);
    } else {
      CellsAfter(df[k], df[k - 1]);
    }
  }

  /** The first row of a group in a sorted frame is the earliest row of that group. */
  lemma SortedFirstIsEarliest(df: seq<Transaction>, k: nat)
    requires Sorted(df) && k < |df|
    ensures FirstOfGroup(df, k) ==>
      forall t :: t in df && GroupOf(t) == GroupOf(df[k]) ==> df[k].timestamp <= t.timestamp
  {
    if FirstOfGroup(df, k) {
      forall t | t in df && GroupOf(t) == GroupOf(df[k]) ensures df[k].timestamp <= t.timestamp {
        var j :| 0 <= j < |df| && df[j] == t;
        if j < k {
          if j < k - 1 {
            GroupBetween(df[j], df[k - 1], df[k]);
          }
          assert false;
        } else if j > k {
          assert RowLe(df[k], df[j]);
        }
      }
    }
  }

  /** Each output row carries the pass-through cells of the frame row it comes from. */
  lemma ModelInputPassesThrough(df: seq<Transaction>, draw: nat -> Bracket)
    ensures PassOuts(ModelInputOf(df, draw)) == PassIns(df)
  {
    forall k | 0 <= k < |df| ensures PassOuts(ModelInputOf(df, draw))[k] == PassIns(df)[k] {
      ModelInputAt(df, draw, k);
    }
  }

  /**
   * Every row of one user gets the same income bracket, and it is the draw whose
   * position is the user's position among the distinct users of the frame: one draw
   * per user.
   */
  lemma ModelInputIncome(df: seq<Transaction>, draw: nat -> Bracket, j: nat, k: nat)
    requires j < |df| && k < |df|
    ensures df[j].userId == df[k].userId ==>
      ModelInputOf(df, draw)[j].incomeBracket == ModelInputOf(df, draw)[k].incomeBracket
    ensures var users := Unique(UserIds(df));
      exists i :: 0 <= i < |users| && users[i] == df[k].userId &&
        ModelInputOf(df, draw)[k].incomeBracket == draw(i)
  {
    var users := Unique(UserIds(df));
    ModelInputAt(df, draw, j);
    ModelInputAt(df, draw, k);
    assert UserIds(df)[k] == df[k].userId;
    assert df[k].userId in UserIds(df);
    assert df[k].userId in users;
    var i :| 0 <= i < |users| && users[i] == df[k].userId;
    assert ModelInputOf(df, draw)[k].incomeBracket == draw(i);
  }

  // ---- The whole transform ----

  /**
   * One output row per input row: the output is the sorted frame, which is in
   * (user_id, merchant, timestamp) order and holds exactly the input rows, with each
   * row's id, description, amount and category copied to its output row.
   */
  lemma FeaturesKeepsRows(rows: seq<Transaction>, draw: nat -> Bracket)
    ensures |Features(rows, draw)| == |rows|
    ensures Sorted(SortRows(rows))
    ensures multiset(SortRows(rows)) == multiset(rows)
    ensures PassOuts(Features(rows, draw)) == PassIns(SortRows(rows))
  {
    SortRowsSorted(rows);
    ModelInputPassesThrough(SortRows(rows), draw);
  }

  /**
   * The first row of a group, and only it, is marked First_Txn; its price change is
   * 0, and no row of its group in the input is earlier.
   */
  lemma FeaturesFirstOfGroup(rows: seq<Transaction>, draw: nat -> Bracket, k: nat)
    requires k < |rows|
    ensures var df := SortRows(rows);
      (Features(rows, draw)[k].frequency == FirstTxn <==> FirstOfGroup(df, k)) &&
      (FirstOfGroup(df, k) ==> Features(rows, draw)[k].priceChangePct == Num(0.0))
    ensures var df := SortRows(rows);
      FirstOfGroup(df, k) ==>
        forall t :: t in rows && GroupOf(t) == GroupOf(df[k]) ==> df[k].timestamp <= t.timestamp
  {
    var df := SortRows(rows);
    SortRowsSorted(rows);
    ModelInputAt(df, draw, k);
    SortedCells(df, k);
    SortedFirstIsEarliest(df, k);
    forall t | t in rows ensures t in df {
      assert t in multiset(rows);
    }
  }

  /**
   * In a sorted frame, a row that follows another row of its group takes that row as
   * its previous transaction: it is not earlier, the gap in whole days is never
   * negative and decides the frequency, and the price change is relative to that
   * row's amount. `Features` applies this to `SortRows(rows)`, which is sorted
   * (FeaturesKeepsRows).
   */
  lemma SortedFollowing(df: seq<Transaction>, draw: nat -> Bracket, k: nat)
    requires Sorted(df) && 0 < k < |df|
    ensures var p := df[k - 1];
      var days := WholeDays(df[k].timestamp - p.timestamp);
      var out := ModelInputOf(df, draw)[k];
      GroupOf(p) == GroupOf(df[k]) ==>
        p.timestamp <= df[k].timestamp && days >= 0 &&
        out.frequency == InferFreq(Some(days)) && out.frequency != FirstTxn &&
        (p.amount != 0.0 ==> out.priceChangePct == Num((df[k].amount - p.amount) / p.amount)) &&
        (p.amount == 0.0 ==>
          out.priceChangePct == if df[k].amount == 0.0 then Num(0.0) else Inf(df[k].amount < 0.0))
  {
    ModelInputAt(df, draw, k);
    SortedCells(df, k);
  }

  /**
   * Every row of one user gets the same income bracket, and it is the draw whose
   * position is the user's position among the distinct users of the sorted frame.
   */
  lemma FeaturesIncome(rows: seq<Transaction>, draw: nat -> Bracket, j: nat, k: nat)
    requires j < |rows| && k < |rows|
    ensures var df := SortRows(rows);
      df[j].userId == df[k].userId ==>
        Features(rows, draw)[j].incomeBracket == Features(rows, draw)[k].incomeBracket
    ensures var df := SortRows(rows);
      var users := Unique(UserIds(df));
      exists i :: 0 <= i < |users| && users[i] == df[k].userId &&
        Features(rows, draw)[k].incomeBracket == draw(i)
  {
    var df := SortRows(rows);
    assert Features(rows, draw) == ModelInputOf(df, draw);
    ModelInputIncome(df, draw, j, k);
  }

  /**
   * A worked case: two rows of one user and merchant, 30 days apart, with amounts
   * 100 and 110, given later-first. The earlier row comes first and is First_Txn
   * with price change 0; the later one is Monthly with price change 0.1.
   */
  lemma TwoMonthlyRows(early: Transaction, late: Transaction, draw: nat -> Bracket)
    requires GroupOf(early) == GroupOf(late)
    requires late.timestamp == early.timestamp + 30 * 86400
    requires early.amount == 100.0 && late.amount == 110.0
    ensures var out := Features([late, early], draw);
      out[0].transactionId == early.transactionId && out[0].frequency == FirstTxn &&
      out[0].priceChangePct == Num(0.0) &&
      out[1].transactionId == late.transactionId && out[1].frequency == Monthly &&
      out[1].priceChangePct == Num(0.1)
  {
    var df := [early, late];
    SortTwo(early, late);
    ModelInputAt(df, draw, 0);
    ModelInputAt(df, draw, 1);
    SortedCells(df, 0);
    SortedCells(df, 1);
    assert WholeDays(late.timestamp - early.timestamp) == 30;
  }

  /** Two rows of one group, the earlier given last, are swapped by the sort. */
  lemma SortTwo(early: Transaction, late: Transaction)
    requires GroupOf(early) == GroupOf(late) && early.timestamp < late.timestamp
    ensures SortRows([late, early]) == [early, late] && Sorted([early, late])
  {
    assert [late, early][..1] == [late];
    assert !RowLe(late, early);
  }
}
