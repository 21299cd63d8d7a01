/** The rows and cells that the feature deriver reads and writes. */
module Frames {

  datatype Option<T> = None | Some(value: T)

  /** A user or merchant key, compared by code point as Python compares `str` values. */
  type Key = string

  /** A parsed timestamp, in whole seconds since an arbitrary epoch. */
  type Timestamp = int

  /**
   * The whole days in a span of seconds, rounded toward negative infinity as the
   * `days` component of a pandas Timedelta is.
   */
  function WholeDays(seconds: int): (d: int)
    ensures d * 86400 <= seconds < (d + 1) * 86400
  {
    seconds / 86400
  }

  /** One row of the raw transaction log, with the columns the deriver uses. */
  datatype Transaction = Transaction(
    transactionId: string,
    userId: Key,
    merchant: Key,
    timestamp: Timestamp,
    amount: real,
    description: string,
    category: string)

  /** The (user_id, merchant) pair that partitions rows into groups. */
  datatype GroupKey = GroupKey(userId: Key, merchant: Key)

  function GroupOf(t: Transaction): GroupKey {
    GroupKey(t.userId, t.merchant)
  }

  /**
   * A cell of a float64 column: a finite value, NaN (also pandas' missing value),
   * or an infinity of the given sign.
   */
  datatype Float = Num(x: real) | NaN | Inf(negative: bool)

  /** The frequency pattern `_infer_freq` assigns. */
  datatype Frequency = FirstTxn | Monthly | Weekly | Annually | Irregular
  {
    /** The label written to the `Frequency` column. */
    function Label(): string {
      match this
      case FirstTxn => "First_Txn"
      case Monthly => "Monthly"
      case Weekly => "Weekly"
      case Annually => "Annually"
      case Irregular => "Irregular"
    }
  }

  /** The income bracket drawn per user. */
  datatype Bracket = High | Low
  {
    function Label(): string {
      match this
      case High => "High"
      case Low => "Low"
    }
  }

  /** A cell of the model input file as written: text, a number, or a float64 value. */
  datatype Cell = Text(text: string) | Decimal(value: real) | Number(f: Float)

  /**
   * One output row; its fields are the seven output columns in their output order,
   * named as in ModelColumns.
   */
  datatype ModelInput = ModelInput(
    transactionId: string,
    description: string,
    amount: real,
    frequency: Frequency,
    priceChangePct: Float,
    incomeBracket: Bracket,
    category: string)
  {
    /** The row's cells in header order, the enum cells written as their labels. */
    function Cells(): (r: seq<Cell>)
      ensures |r| == |ModelColumns|
      ensures forall i :: 0 <= i < |r| && ModelColumns[i] == "Frequency" ==> r[i] == Text(frequency.Label())
      ensures forall i :: 0 <= i < |r| && ModelColumns[i] == "Income_Bracket" ==> r[i] == Text(incomeBracket.Label())
      ensures forall i :: 0 <= i < |r| && ModelColumns[i] == "Price_Change_Pct" ==> r[i] == Number(priceChangePct)
      ensures forall i :: 0 <= i < |r| && ModelColumns[i] == "Amount" ==> r[i] == Decimal(amount)
      ensures forall i :: 0 <= i < |r| && ModelColumns[i] == "Transaction_ID" ==> r[i] == Text(transactionId)
      ensures forall i :: 0 <= i < |r| && ModelColumns[i] == "Description" ==> r[i] == Text(description)
      ensures forall i :: 0 <= i < |r| && ModelColumns[i] == "Category" ==> r[i] == Text(category)
    {
      [Text(transactionId), Text(description), Decimal(amount), Text(frequency.Label()),
       Number(priceChangePct), Text(incomeBracket.Label()), Text(category)]
    }
  }

  /** The header of the model input, in column order. */
  const ModelColumns: seq<string> :=
    ["Transaction_ID", "Description", "Amount", "Frequency",
     "Price_Change_Pct", "Income_Bracket", "Category"]

  /** Distinct frequencies and brackets are written as distinct labels. */
  lemma LabelsDistinct(a: Frequency, b: Frequency, x: Bracket, y: Bracket)
    ensures a.Label() == b.Label() <==> a == b
    ensures x.Label() == y.Label() <==> x == y
  {
  }

  // Whole columns of a frame, one entry per row.

  function Groups(rows: seq<Transaction>): (r: seq<GroupKey>)
    ensures |r| == |rows| && forall i {:trigger r[i]} :: 0 <= i < |rows| ==> r[i] == GroupOf(rows[i])
  {
    if rows == [] then [] else [GroupOf(rows[0])] + Groups(rows[1..])
  }

  function Amounts(rows: seq<Transaction>): (r: seq<real>)
    ensures |r| == |rows| && forall i {:trigger r[i]} :: 0 <= i < |rows| ==> r[i] == rows[i].amount
  {
    if rows == [] then [] else [rows[0].amount] + Amounts(rows[1..])
  }

  function Timestamps(rows: seq<Transaction>): (r: seq<Timestamp>)
    ensures |r| == |rows| && forall i {:trigger r[i]} :: 0 <= i < |rows| ==> r[i] == rows[i].timestamp
  {
    if rows == [] then [] else [rows[0].timestamp] + Timestamps(rows[1..])
  }

  function UserIds(rows: seq<Transaction>): (r: seq<Key>)
    ensures |r| == |rows| && forall i {:trigger r[i]} :: 0 <= i < |rows| ==> r[i] == rows[i].userId
  {
    if rows == [] then [] else [rows[0].userId] + UserIds(rows[1..])
  }
}
