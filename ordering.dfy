/**
 * The order `sort_values(by=['user_id', 'merchant', 'timestamp'])` puts rows in,
 * and a sort that produces it.
 */
module Ordering {
  import opened Frames

  /** Lexicographic order on strings by code point, as Python orders `str` values. */
  predicate KeyLe(a: Key, b: Key)
    decreases |a|
  {
    a == [] || (b != [] && (a[0] < b[0] || (a[0] == b[0] && KeyLe(a[1..], b[1..]))))
  }

  lemma {:induction false} KeyLeTotal(a: Key, b: Key)
    ensures KeyLe(a, b) || KeyLe(b, a)
    decreases |a|
  {
    if a != [] && b != [] && a[0] == b[0] {
      KeyLeTotal(a[1..], b[1..]);
    }
  }

  lemma {:induction false} KeyLeAntisymmetric(a: Key, b: Key)
    requires KeyLe(a, b) && KeyLe(b, a)
    ensures a == b
    decreases |a|
  {
    if a != [] && b != [] {
      KeyLeAntisymmetric(a[1..], b[1..]);
      assert a == [a[0]] + a[1..] && b == [b[0]] + b[1..];
    }
  }

  lemma {:induction false} KeyLeTransitive(a: Key, b: Key, c: Key)
    requires KeyLe(a, b) && KeyLe(b, c)
    ensures KeyLe(a, c)
    decreases |a|
  {
    if a != [] && b != [] && c != [] && a[0] == b[0] == c[0] {
      KeyLeTransitive(a[1..], b[1..], c[1..]);
    }
  }

  /** Strictly before, in KeyLe order. */
  predicate KeyLt(a: Key, b: Key) {
    KeyLe(a, b) && a != b
  }

  /** Row `a` may come before row `b`: (user_id, merchant, timestamp) compared lexicographically. */
  predicate RowLe(a: Transaction, b: Transaction) {
    KeyLt(a.userId, b.userId) ||
    (a.userId == b.userId &&
      (KeyLt(a.merchant, b.merchant) ||
       (a.merchant == b.merchant && a.timestamp <= b.timestamp)))
  }

  lemma RowLeTotal(a: Transaction, b: Transaction)
    ensures RowLe(a, b) || RowLe(b, a)
  {
    KeyLeTotal(a.userId, b.userId);
    KeyLeTotal(a.merchant, b.merchant);
  }

  lemma RowLeTransitive(a: Transaction, b: Transaction, c: Transaction)
    requires RowLe(a, b) && RowLe(b, c)
    ensures RowLe(a, c)
  {
    if KeyLe(a.userId, b.userId) && KeyLe(b.userId, c.userId) {
      KeyLeTransitive(a.userId, b.userId, c.userId);
      if a.userId == c.userId && a.userId != b.userId {
        KeyLeAntisymmetric(a.userId, b.userId);
      }
    }
    if KeyLe(a.merchant, b.merchant) && KeyLe(b.merchant, c.merchant) {
      KeyLeTransitive(a.merchant, b.merchant, c.merchant);
      if a.merchant == c.merchant && a.merchant != b.merchant {
        KeyLeAntisymmetric(a.merchant, b.merchant);
      }
    }
  }

  /**
   * A row that sorts between two rows of one (user_id, merchant) group belongs to
   * that group: in a sorted frame every group is one contiguous run.
   */
  lemma GroupBetween(a: Transaction, b: Transaction, c: Transaction)
    requires RowLe(a, b) && RowLe(b, c) && GroupOf(a) == GroupOf(c)
    ensures GroupOf(b) == GroupOf(a)
  {
    if a.userId != b.userId {
      KeyLeAntisymmetric(a.userId, b.userId);
    }
    if a.merchant != b.merchant {
      KeyLeAntisymmetric(a.merchant, b.merchant);
    }
  }

  ghost predicate Sorted(s: seq<Transaction>) {
    forall i, j {:trigger RowLe(s[i], s[j])} :: 0 <= i < j < |s| ==> RowLe(s[i], s[j])
  }

  /** `s` with `x` placed after every row that is not above it. */
  function Insert(x: Transaction, s: seq<Transaction>): (r: seq<Transaction>)
    ensures |r| == |s| + 1
    ensures multiset(r) == multiset(s) + multiset{x}
  {
    if s == [] then [x]
    else if RowLe(s[0], x) then
      assert s == [s[0]] + s[1..];
      [s[0]] + Insert(x, s[1..])
    else [x] + s
  }

  /**
   * The frame sorted by (user_id, merchant, timestamp); rows with equal keys keep
   * their input order. No row is dropped or duplicated.
   */
  function SortRows(rows: seq<Transaction>): (r: seq<Transaction>)
    ensures |r| == |rows|
    ensures multiset(r) == multiset(rows)
  {
    if rows == [] then []
    else
      assert rows == rows[..|rows| - 1] + [rows[|rows| - 1]];
      Insert(rows[|rows| - 1], SortRows(rows[..|rows| - 1]))
  }

  lemma {:induction false} InsertSorted(x: Transaction, s: seq<Transaction>)
    requires Sorted(s)
    ensures Sorted(Insert(x, s))
    decreases |s|
  {
    if s == [] {
    } else if RowLe(s[0], x) {
      var t := Insert(x, s[1..]);
      InsertSorted(x, s[1..]);
      forall j | 0 <= j < |t| ensures RowLe(s[0], t[j]) {
        assert t[j] in multiset(s[1..]) + multiset{x};
        if t[j] != x {
          assert t[j] in s[1..];
          var k :| 0 <= k < |s[1..]| && s[1..][k] == t[j];
          assert s[k + 1] == t[j];
        }
      }
    } else {
      RowLeTotal(s[0], x);
      forall j | 0 <= j < |s| ensures RowLe(x, s[j]) {
        if j > 0 {
          RowLeTransitive(x, s[0], s[j]);
        }
      }
    }
  }

  /** The sort yields a non-decreasing frame. */
  lemma {:induction false} SortRowsSorted(rows: seq<Transaction>)
    ensures Sorted(SortRows(rows))
    decreases |rows|
  {
    if rows != [] {
      SortRowsSorted(rows[..|rows| - 1]);
      InsertSorted(rows[|rows| - 1], SortRows(rows[..|rows| - 1]));
    }
  }
}
