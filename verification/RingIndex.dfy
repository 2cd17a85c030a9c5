/** Index arithmetic on a ring of ranks. */
module RingIndex {

  const WORD := 0x1_0000_0000_0000_0000

  lemma RemainderOnce(x: nat, p: nat)
    requires 0 < p && x < 2 * p
    ensures x % p == if x < p then x else x - p
  {
    var q := x / p;
    assert x == p * q + x % p;
    assert q >= 2 ==> p * q >= 2 * p;
    assert q == 0 ==> p * q == 0;
  }

  lemma DecrementSum(index: nat, ringSize: nat)
    requires index < WORD && 0 < ringSize < WORD
    ensures (((index - 1) % WORD) + ringSize) % WORD
            == if index == 0 then ringSize - 1
               else if index - 1 + ringSize < WORD then index - 1 + ringSize
               else index - 1 + ringSize - WORD
  {
    if index == 0 {
      assert -1 % WORD == WORD - 1;
    } else {
      assert (index - 1) % WORD == index - 1;
    }
  }

  /** `index - 1 + ring_size` is computed modulo the word size before the remainder is taken: the
      predecessor on the ring, exactly if that sum does not leave the word. */
  function DecrementIndexOnRing(index: nat, ringSize: nat): (r: nat)
    requires index < WORD && 0 < ringSize < WORD
    ensures index < ringSize ==>
              (r == (if index == 0 then ringSize - 1 else index - 1) <==> index == 0 || index - 1 + ringSize < WORD)
  {
    DecrementSum(index, ringSize);
    var sum := (((index - 1) % WORD) + ringSize) % WORD;
    assert sum < 2 * ringSize ==> sum % ringSize == if sum < ringSize then sum else sum - ringSize by {
      if sum < 2 * ringSize { RemainderOnce(sum, ringSize); }
    }
    sum % ringSize
  }

  function IncrementIndexOnRing(index: nat, ringSize: nat): (r: nat)
    requires index < WORD && 0 < ringSize < WORD
    ensures index < ringSize ==> r == if index + 1 == ringSize then 0 else index + 1
    ensures index < ringSize ==>
              (DecrementIndexOnRing(r, ringSize) == index <==> index + 1 == ringSize || index + ringSize < WORD)
  {
    var sum := (index + 1) % WORD;
    assert sum < 2 * ringSize ==> sum % ringSize == if sum < ringSize then sum else sum - ringSize by {
      if sum < 2 * ringSize { RemainderOnce(sum, ringSize); }
    }
    sum % ringSize
  }

  /** An index beyond the ring is brought back into it, again as long as the sums stay in the word. */
  lemma OutsideRing(index: nat, ringSize: nat)
    requires index < WORD && 0 < ringSize < WORD
    ensures 0 < index && index - 1 + ringSize < WORD ==> DecrementIndexOnRing(index, ringSize) == (index - 1) % ringSize
    ensures index + 1 < WORD ==> IncrementIndexOnRing(index, ringSize) == (index + 1) % ringSize
  {
    if 0 < index && index - 1 + ringSize < WORD {
      assert (((index - 1) % WORD) + ringSize) % WORD == index - 1 + ringSize;
      RemainderShift(index - 1, ringSize);
    }
    if index + 1 < WORD { assert (index + 1) % WORD == index + 1; }
  }

  lemma AtLeast(p: nat, k: nat)
    requires 1 <= k
    ensures p <= p * k
  {}

  lemma RemainderUnique(x: nat, p: nat, q: nat, r: nat)
    requires r < p && x == p * q + r
    ensures x % p == r
  {
    var k := x / p - q;
    assert p * k == p * (x / p) - p * q == r - x % p;
    if 1 <= k { AtLeast(p, k); }
  }

  lemma RemainderShift(x: nat, p: nat)
    requires 0 < p
    ensures (x + p) % p == x % p
  {
    assert p * (x / p + 1) == p * (x / p) + p;
    RemainderUnique(x + p, p, x / p + 1, x % p);
  }

  /** The index reached from `r` by `m` decrements, for less than two turns. */
  function Back(p: nat, r: nat, m: nat): (c: nat)
    requires r < p && m <= r + 2 * p
    ensures c < p
  {
    if m <= r then r - m else if m <= r + p then r + p - m else r + 2 * p - m
  }

  /** The number of decrements from `r` to `c`. */
  function Dist(p: nat, r: nat, c: nat): (d: nat)
    requires r < p && c < p
    ensures d < p && Back(p, r, d) == c
  {
    if c <= r then r - c else r + p - c
  }

  /** The index reached from `c` by `j` increments, for at most one turn. */
  function Forth(p: nat, c: nat, j: nat): (r: nat)
    requires c < p && j <= p
    ensures r < p
    ensures j < p ==> Dist(p, r, c) == j
  {
    if c + j < p then c + j else if c + j < 2 * p then c + j - p else c
  }

  function Next(p: nat, r: nat): (n: nat)
    requires r < p
    ensures n < p
  {
    if r + 1 == p then 0 else r + 1
  }

  function Prev(p: nat, r: nat): (n: nat)
    requires r < p
    ensures n < p && Next(p, n) == r
  {
    if r == 0 then p - 1 else r - 1
  }
}
