/** Optional values, results that may carry an error, and numbers not in use. */
module Wrappers {

  datatype Option<+T> = None | Some(value: T)

  datatype Result<+T, +E> = Ok(value: T) | Err(error: E)

  /** Some number exceeds all those in use. */
  lemma {:induction false} UnusedNumber(used: set<nat>) returns (n: nat)
    ensures forall k | k in used :: k < n
  {
    n := 0;
    if used != {} {
      var k :| k in used;
      var m := UnusedNumber(used - {k});
      n := if k < m then m else k + 1;
      assert forall i | i in used :: i == k || i in used - {k};
    }
  }
}
