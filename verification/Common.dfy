/** Vocabulary shared by every component: optional values and counting in a table. */
module Common {

  datatype Option<+T> = None | Some(value: T)

  /** How many rows of a table satisfy a condition. */
  function Count<T>(rows: seq<T>, p: T -> bool): (n: nat)
    ensures n <= |rows|
  {
    if rows == [] then 0
    else Count(rows[..|rows| - 1], p) + Bit(p(rows[|rows| - 1]))
  }

  function Bit(b: bool): (n: nat)
    ensures n <= 1
  {
    if b then 1 else 0
  }

  lemma CountAppend<T>(rows: seq<T>, row: T, p: T -> bool)
    ensures Count(rows + [row], p) == Count(rows, p) + Bit(p(row))
  {
    assert (rows + [row])[..|rows|] == rows;
  }

  lemma {:induction false} CountUpdate<T>(rows: seq<T>, i: nat, row: T, p: T -> bool)
    requires i < |rows|
    ensures Count(rows[i := row], p) + Bit(p(rows[i])) == Count(rows, p) + Bit(p(row))
  {
    var last := |rows| - 1;
    if i == last {
      assert rows[i := row][..last] == rows[..last];
    } else {
      assert rows[i := row][..last] == rows[..last][i := row];
      CountUpdate(rows[..last], i, row, p);
    }
  }

  /** Rewriting a table row by row without making the condition true anywhere cannot raise the count. */
  lemma {:induction false} CountMonotone<T>(before: seq<T>, after: seq<T>, p: T -> bool)
    requires |before| == |after|
    requires forall i :: 0 <= i < |before| && p(after[i]) ==> p(before[i])
    ensures Count(after, p) <= Count(before, p)
  {
    if before != [] {
      var last := |before| - 1;
      CountMonotone(before[..last], after[..last], p);
    }
  }

  /** `n` times `k`, by repeated addition. */
  function Repeated(k: nat, n: nat): nat {
    if n == 0 then 0 else k + Repeated(k, n - 1)
  }

  lemma {:induction false} RepeatedIsProduct(k: nat, n: nat)
    ensures Repeated(k, n) == k * n
  {
    if n > 0 {
      RepeatedIsProduct(k, n - 1);
      assert k * n == k + k * (n - 1);
    }
  }
}
