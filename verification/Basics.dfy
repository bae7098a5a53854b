/** Small definitions shared by every module. */
module Basics {

  datatype Option<+T> = None | Some(value: T)

  /** Largest value of the source's int64 counters. */
  const MAX_INT64: nat := 0x7FFF_FFFF_FFFF_FFFF

  function Max(a: nat, b: nat): (m: nat)
    ensures m >= a && m >= b && (m == a || m == b)
  {
    if a < b then b else a
  }

  lemma SubsetSize<T>(a: set<T>, b: set<T>)
    requires a <= b
    ensures |a| <= |b|
  {
    assert b == a + (b - a);
  }
}
