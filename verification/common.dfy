/** Small definitions shared by the other modules. */
module Common {

  datatype Option<T> = None | Some(value: T)

  /** 0, 1, ..., n - 1: the values the test drivers push, in order. */
  function Range(n: nat): (s: seq<int>)
    ensures |s| == n && forall i | 0 <= i < n :: s[i] == i
  {
    seq(n, i => i)
  }

  /** Range grows at its end. */
  lemma RangeAppend(n: nat)
    ensures Range(n) + [n] == Range(n + 1)
  {
    assert forall i | 0 <= i <= n :: (Range(n) + [n])[i] == i;
  }
}
