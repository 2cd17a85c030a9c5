/** Copying between buffers. */
module Buffers {

  /** std::copy of `count` elements. */
  method CopyElements<T>(from: array<T>, begin: nat, count: nat, into: array<T>, at: nat)
    requires from != into && begin + count <= from.Length && at + count <= into.Length
    modifies into
    ensures into[..] == old(into[..at]) + from[begin..begin + count] + old(into[at + count..])
    ensures at == 0 ==> into[..] == from[begin..begin + count] + old(into[count..])
    ensures into[..at + count] == old(into[..at]) + from[begin..begin + count]
  {
    for i := 0 to count
      invariant into[..at] == old(into[..at])
      invariant into[at..at + i] == from[begin..begin + i]
      invariant into[at + i..] == old(into[at + i..])
    {
      into[at + i] := from[begin + i];
    }
    assert into[..] == into[..at] + into[at..at + count] + into[at + count..];
    assert into[..at + count] == into[..at] + into[at..at + count];
  }

  method CopyBuffer<T>(from: array<T>, into: array<T>)
    requires from != into && from.Length == into.Length
    modifies into
    ensures into[..] == from[..]
  {
    for i := 0 to from.Length
      invariant into[..i] == from[..i]
    {
      into[i] := from[i];
    }
  }
}
