/** The reduction operators of the allreduce collectives. */
module Reduction {

  /** Elementwise reduction, local operand first. */
  function Zip<T>(op: (T, T) -> T, a: seq<T>, b: seq<T>): (s: seq<T>)
    requires |a| == |b|
    ensures |s| == |a|
    ensures forall i :: 0 <= i < |s| ==> s[i] == op(a[i], b[i])
  {
    seq(|a|, i requires 0 <= i < |a| => op(a[i], b[i]))
  }

  /** Overwrites `local` with the elementwise reduction, local operand first. */
  method ApplyReduceOp<T>(op: (T, T) -> T, local: array<T>, received: array<T>)
    requires local != received && local.Length == received.Length
    modifies local
    ensures local[..] == Zip(op, old(local[..]), received[..])
  {
    for i := 0 to local.Length
      invariant forall j :: 0 <= j < i ==> local[j] == op(old(local[j]), received[j])
      invariant forall j :: i <= j < local.Length ==> local[j] == old(local[j])
    {
      local[i] := op(local[i], received[i]);
    }
  }

  ghost predicate AssociativeAt<T>(op: (T, T) -> T, x: T, y: T, z: T) {
    op(op(x, y), z) == op(x, op(y, z))
  }

  ghost predicate Associative<T(!new)>(op: (T, T) -> T) {
    forall x, y, z :: AssociativeAt(op, x, y, z)
  }

  ghost predicate CommutativeAt<T>(op: (T, T) -> T, x: T, y: T) {
    op(x, y) == op(y, x)
  }

  ghost predicate Commutative<T(!new)>(op: (T, T) -> T) {
    forall x, y :: CommutativeAt(op, x, y)
  }
}
