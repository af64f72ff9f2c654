/** `for i, a in enumerate(ops): for b in ops[i + 1:]`: every pair of a list, each once. */
module Pairing {

  function PairsWith<T, R>(row: (T, T) -> R, a: T, later: seq<T>): (rows: seq<R>)
    ensures |rows| == |later| && forall j :: 0 <= j < |later| ==> rows[j] == row(a, later[j])
  {
    if later == [] then [] else [row(a, later[0])] + PairsWith(row, a, later[1..])
  }

  /** The first element with all later ones, then the second, and so on. */
  function AllPairs<T, R>(row: (T, T) -> R, ops: seq<T>): seq<R> {
    if ops == [] then [] else PairsWith(row, ops[0], ops[1..]) + AllPairs(row, ops[1..])
  }

  /** Where the pairs of the `i`-th of `n` elements begin. */
  function StartOf(n: nat, i: nat): nat
    requires i <= n
  {
    if i == 0 then 0 else (n - 1) + StartOf(n - 1, i - 1)
  }

  lemma {:induction false} PairCount<T, R>(row: (T, T) -> R, ops: seq<T>)
    ensures 2 * |AllPairs(row, ops)| == |ops| * (|ops| - 1)
  {
    if ops != [] {
      PairCount(row, ops[1..]);
      var n := |ops|;
      assert n * (n - 1) == (n - 1) * (n - 2) + 2 * (n - 1);
    }
  }

  lemma FirstPairs<T, R>(row: (T, T) -> R, ops: seq<T>, k: nat)
    requires k + 1 < |ops|
    ensures k < |AllPairs(row, ops)| && AllPairs(row, ops)[k] == row(ops[0], ops[k + 1])
  {
    var first, rest := PairsWith(row, ops[0], ops[1..]), AllPairs(row, ops[1..]);
    assert (first + rest)[k] == first[k] && ops[1..][k] == ops[k + 1];
  }

  lemma LaterPairs<T, R>(row: (T, T) -> R, ops: seq<T>, k: nat)
    requires ops != [] && k < |AllPairs(row, ops[1..])|
    ensures |ops| - 1 + k < |AllPairs(row, ops)| && AllPairs(row, ops)[|ops| - 1 + k] == AllPairs(row, ops[1..])[k]
  {
    var first, rest := PairsWith(row, ops[0], ops[1..]), AllPairs(row, ops[1..]);
    assert (first + rest)[|first| + k] == rest[k];
  }

  /** The pair `i < j` stands at its place in pair order. */
  lemma {:induction false} PairAt<T, R>(row: (T, T) -> R, ops: seq<T>, i: nat, j: nat)
    requires i < j < |ops|
    ensures StartOf(|ops|, i) + (j - i - 1) < |AllPairs(row, ops)|
    ensures AllPairs(row, ops)[StartOf(|ops|, i) + (j - i - 1)] == row(ops[i], ops[j])
  {
    if i == 0 {
      FirstPairs(row, ops, j - 1);
    } else {
      var k := StartOf(|ops| - 1, i - 1) + (j - i - 1);
      PairAt(row, ops[1..], i - 1, j - 1);
      assert ops[1..][i - 1] == ops[i] && ops[1..][j - 1] == ops[j];
      LaterPairs(row, ops, k);
      assert StartOf(|ops|, i) + (j - i - 1) == |ops| - 1 + k;
    }
  }

  /** Every entry is the row of some pair. */
  lemma {:induction false} PairOrigin<T, R>(row: (T, T) -> R, ops: seq<T>, k: nat) returns (i: nat, j: nat)
    requires k < |AllPairs(row, ops)|
    ensures i < j < |ops| && AllPairs(row, ops)[k] == row(ops[i], ops[j])
  {
    if k < |ops| - 1 {
      FirstPairs(row, ops, k);
      i, j := 0, k + 1;
    } else {
      LaterPairs(row, ops, k - (|ops| - 1));
      i, j := PairOrigin(row, ops[1..], k - (|ops| - 1));
      i, j := i + 1, j + 1;
    }
  }

  /** One turn of the outer loop. */
  lemma PairsFrom<T, R>(row: (T, T) -> R, ops: seq<T>, i: nat, rows: seq<R>)
    requires i < |ops| && AllPairs(row, ops) == rows + AllPairs(row, ops[i..])
    ensures AllPairs(row, ops) == (rows + PairsWith(row, ops[i], ops[i + 1..])) + AllPairs(row, ops[i + 1..])
  {
    assert ops[i..][1..] == ops[i + 1..];
    Associates(rows, PairsWith(row, ops[i], ops[i + 1..]), AllPairs(row, ops[i + 1..]));
  }

  lemma Associates<T>(a: seq<T>, b: seq<T>, c: seq<T>)
    ensures (a + b) + c == a + (b + c)
  {
  }
}
