/** Offsets of the consecutive blocks of a buffer. */
module PrefixSums {

  /** The elements of the first `n` ranks. */
  function Sum(counts: seq<nat>, n: nat): (s: nat)
    requires n <= |counts|
  {
    if n == 0 then 0 else Sum(counts, n - 1) + counts[n - 1]
  }

  lemma {:induction false} SumMonotonic(counts: seq<nat>, i: nat, j: nat)
    requires i <= j <= |counts|
    ensures Sum(counts, i) <= Sum(counts, j)
  {
    if i == j {
    } else {
      SumMonotonic(counts, i, j - 1);
    }
  }

  /** The blocks follow one another, so they do not overlap and all lie inside the buffer. */
  lemma {:induction false} BlocksApart(sizes: seq<nat>, i: nat, j: nat)
    requires i < j <= |sizes|
    ensures Sum(sizes, i) + sizes[i] <= Sum(sizes, j) <= Sum(sizes, |sizes|)
  {
    SumMonotonic(sizes, i + 1, j);
    SumMonotonic(sizes, j, |sizes|);
  }

  method Offsets(counts: seq<nat>) returns (offsets: seq<nat>)
    ensures |offsets| == |counts| && forall i :: 0 <= i < |offsets| ==> offsets[i] == Sum(counts, i)
  {
    offsets := [];
    for i := 0 to |counts|
      invariant |offsets| == i && forall j :: 0 <= j < i ==> offsets[j] == Sum(counts, j)
    {
      offsets := offsets + [if i == 0 then 0 else offsets[i - 1] + counts[i - 1]];
    }
  }
}
