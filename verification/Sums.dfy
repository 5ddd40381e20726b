/** Sums of a weight over the entries of a table, and how one write changes them. */
module Sums {

  function SumOf<T>(weight: T -> int, table: seq<T>): int {
    if |table| == 0 then 0 else weight(table[0]) + SumOf(weight, table[1..])
  }

  lemma {:induction false} SumUpdate<T>(weight: T -> int, table: seq<T>, i: nat, entry: T)
    requires i < |table|
    ensures SumOf(weight, table[i := entry]) == SumOf(weight, table) - weight(table[i]) + weight(entry)
  {
    if i == 0 {
      assert table[i := entry][1..] == table[1..];
    } else {
      assert table[i := entry][1..] == table[1..][i - 1 := entry];
      SumUpdate(weight, table[1..], i - 1, entry);
    }
  }

  lemma {:induction false} SumAppend<T>(weight: T -> int, table: seq<T>, entry: T)
    ensures SumOf(weight, table + [entry]) == SumOf(weight, table) + weight(entry)
  {
    if |table| == 0 {
      assert table + [entry] == [entry];
    } else {
      assert (table + [entry])[1..] == table[1..] + [entry];
      SumAppend(weight, table[1..], entry);
    }
  }

  lemma {:induction false} SumAtLeast<T>(weight: T -> int, table: seq<T>, i: nat)
    requires i < |table|
    requires forall k :: 0 <= k < |table| ==> 0 <= weight(table[k])
    ensures weight(table[i]) <= SumOf(weight, table)
  {
    SumNonNegative(weight, table[1..]);
    if i > 0 {
      assert table[1..][i - 1] == table[i];
      SumAtLeast(weight, table[1..], i - 1);
    }
  }

  lemma {:induction false} SumNonNegative<T>(weight: T -> int, table: seq<T>)
    requires forall k :: 0 <= k < |table| ==> 0 <= weight(table[k])
    ensures 0 <= SumOf(weight, table)
  {
    if |table| > 0 {
      SumNonNegative(weight, table[1..]);
    }
  }

  lemma {:induction false} SumZero<T>(weight: T -> int, table: seq<T>)
    requires forall k :: 0 <= k < |table| ==> weight(table[k]) == 0
    ensures SumOf(weight, table) == 0
  {
    if |table| > 0 {
      SumZero(weight, table[1..]);
    }
  }
}
