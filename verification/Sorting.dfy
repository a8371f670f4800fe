/** The stable sort by an integer key, as the database's ordering and the array sort both do it. */
module Sorting {
  import opened Sums

  ghost predicate Ordered<T>(rows: seq<T>, key: T -> int) {
    forall i, j :: 0 <= i < j < |rows| ==> key(rows[i]) <= key(rows[j])
  }

  /** Stable insertion: after every row whose key is not larger. */
  function Insert<T>(rows: seq<T>, row: T, key: T -> int): seq<T> {
    if |rows| == 0 || key(rows[|rows| - 1]) <= key(row) then rows + [row]
    else Insert(rows[..|rows| - 1], row, key) + [rows[|rows| - 1]]
  }

  function SortBy<T>(rows: seq<T>, key: T -> int): seq<T> {
    if |rows| == 0 then [] else Insert(SortBy(rows[..|rows| - 1], key), rows[|rows| - 1], key)
  }

  lemma {:induction false} InsertPermutes<T>(rows: seq<T>, row: T, key: T -> int)
    ensures multiset(Insert(rows, row, key)) == multiset(rows) + multiset{row}
  {
    if |rows| > 0 && key(rows[|rows| - 1]) > key(row) {
      InsertPermutes(rows[..|rows| - 1], row, key);
      assert rows == rows[..|rows| - 1] + [rows[|rows| - 1]];
    }
  }

  lemma InsertMembers<T>(rows: seq<T>, row: T, key: T -> int, x: T)
    ensures x in Insert(rows, row, key) <==> x in rows || x == row
  {
  }

  lemma {:induction false} SortPermutes<T>(rows: seq<T>, key: T -> int)
    ensures multiset(SortBy(rows, key)) == multiset(rows)
  {
    if |rows| > 0 {
      SortPermutes(rows[..|rows| - 1], key);
      InsertPermutes(SortBy(rows[..|rows| - 1], key), rows[|rows| - 1], key);
      assert rows == rows[..|rows| - 1] + [rows[|rows| - 1]];
    }
  }

  lemma {:induction false} InsertKeepsOrder<T>(rows: seq<T>, row: T, key: T -> int)
    requires Ordered(rows, key)
    ensures Ordered(Insert(rows, row, key), key)
  {
    if |rows| > 0 && key(rows[|rows| - 1]) > key(row) {
      var init, last := rows[..|rows| - 1], rows[|rows| - 1];
      InsertKeepsOrder(init, row, key);
      var r := Insert(init, row, key);
      forall i | 0 <= i < |r| ensures key(r[i]) <= key(last) {
        InsertMembers(init, row, key, r[i]);
      }
    }
  }

  lemma {:induction false} SortIsOrdered<T>(rows: seq<T>, key: T -> int)
    ensures Ordered(SortBy(rows, key), key)
  {
    if |rows| > 0 {
      SortIsOrdered(rows[..|rows| - 1], key);
      InsertKeepsOrder(SortBy(rows[..|rows| - 1], key), rows[|rows| - 1], key);
    }
  }

  /** Rows already in order are left alone, ties included. */
  lemma {:induction false} SortOfSorted<T>(rows: seq<T>, key: T -> int)
    requires Ordered(rows, key)
    ensures SortBy(rows, key) == rows
  {
    if |rows| > 0 {
      var init := rows[..|rows| - 1];
      SortOfSorted(init, key);
      assert init == [] || key(init[|init| - 1]) <= key(rows[|rows| - 1]);
      assert rows == init + [rows[|rows| - 1]];
    }
  }

  /** Rows with one key keep their relative order. */
  function WithKey<T>(rows: seq<T>, key: T -> int, k: int): seq<T> {
    if |rows| == 0 then []
    else WithKey(rows[..|rows| - 1], key, k) + if key(rows[|rows| - 1]) == k then [rows[|rows| - 1]] else []
  }

  lemma {:induction false} InsertIsStable<T>(rows: seq<T>, row: T, key: T -> int, k: int)
    requires Ordered(rows, key)
    ensures WithKey(Insert(rows, row, key), key, k) == WithKey(rows, key, k) + if key(row) == k then [row] else []
  {
    var n := |rows| - 1;
    if |rows| == 0 || key(rows[n]) <= key(row) {
      assert (rows + [row])[..|rows|] == rows;
    } else {
      var init := rows[..n];
      InsertIsStable(init, row, key, k);
      var r := Insert(init, row, key);
      assert (r + [rows[n]])[..|r|] == r;
    }
  }

  lemma {:induction false} SortIsStable<T>(rows: seq<T>, key: T -> int, k: int)
    ensures WithKey(SortBy(rows, key), key, k) == WithKey(rows, key, k)
  {
    if |rows| > 0 {
      var init := rows[..|rows| - 1];
      SortIsStable(init, key, k);
      SortIsOrdered(init, key);
      InsertIsStable(SortBy(init, key), rows[|rows| - 1], key, k);
    }
  }

  lemma {:induction false} InsertSum<T>(rows: seq<T>, row: T, key: T -> int, f: T -> int)
    ensures Sum(Insert(rows, row, key), f) == Sum(rows, f) + f(row)
  {
    if |rows| == 0 || key(rows[|rows| - 1]) <= key(row) {
      Append(rows, row, f);
    } else {
      InsertSum(rows[..|rows| - 1], row, key, f);
      Append(Insert(rows[..|rows| - 1], row, key), rows[|rows| - 1], f);
    }
  }

  /** Sorting leaves every sum over the rows unchanged. */
  lemma {:induction false} SortSum<T>(rows: seq<T>, key: T -> int, f: T -> int)
    ensures Sum(SortBy(rows, key), f) == Sum(rows, f)
  {
    if |rows| > 0 {
      SortSum(rows[..|rows| - 1], key, f);
      InsertSum(SortBy(rows[..|rows| - 1], key), rows[|rows| - 1], key, f);
    }
  }
}
