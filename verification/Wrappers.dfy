/** Option and Result, used for error returns and for C pointers that may be NULL,
    and a fresh number for identifiers that the kernel hands out. */
module Wrappers {
  datatype Option<+T> = None | Some(value: T)

  datatype Result<+T, +E> = Success(value: T) | Failure(error: E)

  lemma Unused(ks: set<nat>) returns (k: nat)
    ensures forall x | x in ks :: x < k
    decreases |ks|
  {
    if ks == {} {
      k := 0;
    } else {
      var x :| x in ks;
      k := Unused(ks - {x});
      assert forall y | y in ks :: y == x || y in ks - {x};
      if x >= k { k := x + 1; }
    }
  }
}
