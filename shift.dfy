/**
 * `groupby(keys)[column].shift(1)`: each row receives the value that the previous
 * row of its own group holds in the frame's current order, or nothing.
 */
module Shift {
  import opened Frames
  import opened Ordering

  /** The last row before `hi` whose key is `k`, if there is one. */
  function LastIndexOf<K(==)>(keys: seq<K>, k: K, hi: nat): (r: Option<nat>)
    requires hi <= |keys|
    ensures r.Some? ==> r.value < hi && keys[r.value] == k
    ensures r.Some? ==> forall j :: r.value < j < hi ==> keys[j] != k
    ensures r.None? ==> forall j :: 0 <= j < hi ==> keys[j] != k
    decreases hi
  {
    if hi == 0 then None
    else if keys[hi - 1] == k then Some(hi - 1)
    else LastIndexOf(keys, k, hi - 1)
  }

  /** The shifted value of row `i`: the value of the previous row of its group. */
  function ShiftedAt<K(==), T>(keys: seq<K>, values: seq<T>, i: nat): Option<T>
    requires |keys| == |values| && i < |keys|
  {
    match LastIndexOf(keys, keys[i], i)
    case None => None
    case Some(j) => Some(values[j])
  }

  /** The shifted column, from row `i` on. */
  function ShiftedFrom<K(==), T>(keys: seq<K>, values: seq<T>, i: nat): (r: seq<Option<T>>)
    requires |keys| == |values| && i <= |keys|
    ensures |r| == |keys| - i
    ensures forall j :: i <= j < |keys| ==> r[j - i] == ShiftedAt(keys, values, j)
    decreases |keys| - i
  {
    if i == |keys| then [] else [ShiftedAt(keys, values, i)] + ShiftedFrom(keys, values, i + 1)
  }

  /** The whole shifted column. */
  function Shifted<K(==), T>(keys: seq<K>, values: seq<T>): (r: seq<Option<T>>)
    requires |keys| == |values|
    ensures |r| == |keys| && forall i {:trigger r[i]} :: 0 <= i < |keys| ==> r[i] == ShiftedAt(keys, values, i)
  {
    ShiftedFrom(keys, values, 0)
  }

  /**
   * A shifted cell is missing exactly when no earlier row has the same key; otherwise
   * it is the value of the nearest earlier row with that key.
   */
  lemma ShiftedMeaning<K, T>(keys: seq<K>, values: seq<T>, i: nat)
    requires |keys| == |values| && i < |keys|
    ensures Shifted(keys, values)[i].None? <==> forall j :: 0 <= j < i ==> keys[j] != keys[i]
    ensures Shifted(keys, values)[i].Some? ==>
      exists j :: 0 <= j < i && keys[j] == keys[i] && Shifted(keys, values)[i].value == values[j] &&
        (forall m :: j < m < i ==> keys[m] != keys[i])
  {
    var r := LastIndexOf(keys, keys[i], i);
    if r.Some? {
      assert keys[r.value] == keys[i];
    }
  }

  /**
   * One pass over the frame that remembers, per group, the value of the last row
   * seen so far.
   */
  method GroupShift<K(==), T>(keys: seq<K>, values: seq<T>) returns (shifted: seq<Option<T>>)
    requires |keys| == |values|
    ensures |shifted| == |keys|
    ensures shifted == Shifted(keys, values)
  {
    var last: map<K, T> := map[];
    shifted := [];
    for i := 0 to |keys|
      invariant |shifted| == i
      invariant forall j :: 0 <= j < i ==> shifted[j] == ShiftedAt(keys, values, j)
      invariant forall k :: k in last <==> LastIndexOf(keys, k, i).Some?
      invariant forall k :: k in last ==> last[k] == values[LastIndexOf(keys, k, i).value]
    {
      var k := keys[i];
      if k in last {
        shifted := shifted + [Some(last[k])];
      } else {
        shifted := shifted + [None];
      }
      last := last[k := values[i]];
    }
  }

  /**
   * In a frame sorted by (user_id, merchant, timestamp) the previous row of a row's
   * group is the row just above it when that row is in the same group, and there is
   * none otherwise.
   */
  lemma SortedPrevious(s: seq<Transaction>, i: nat)
    requires Sorted(s) && i < |s|
    ensures LastIndexOf(Groups(s), GroupOf(s[i]), i) ==
      if i > 0 && GroupOf(s[i - 1]) == GroupOf(s[i]) then Some(i - 1) else None
  {
    var keys := Groups(s);
    if i > 0 && GroupOf(s[i - 1]) != GroupOf(s[i]) {
      var r := LastIndexOf(keys, keys[i], i);
      if r.Some? {
        var j := r.value;
        GroupBetween(s[j], s[i - 1], s[i]);
        assert false;
      }
    }
  }
}
