/** The block list shared by the two first-fit allocators of a segment, and what it means: the
    list is determined by the arena and the set of live allocations. */
module FreeList {

  datatype Block = Block(start: nat, size: nat, free: bool)

  /** A live allocation. */
  datatype Extent = Extent(start: nat, size: nat)

  datatype Error = BadAlloc | NotReleased | RequestedNothing

  datatype Result<T> = Ok(value: T) | Err(error: Error)

  // ----- the list operations -----

  predicate Fits(b: Block, n: nat) {
    b.free && b.size >= n
  }

  /** The first free block of at least `n` units, or |bs|. */
  function FirstFit(bs: seq<Block>, n: nat): (i: nat)
    ensures i <= |bs| && (i < |bs| ==> Fits(bs[i], n))
    ensures forall j :: 0 <= j < i ==> !Fits(bs[j], n)
  {
    if bs == [] || Fits(bs[0], n) then 0 else 1 + FirstFit(bs[1..], n)
  }

  /** The first block starting at `a`, or |bs|. */
  function Find(bs: seq<Block>, a: nat): (i: nat)
    ensures i <= |bs| && (i < |bs| ==> bs[i].start == a)
    ensures forall j :: 0 <= j < i ==> bs[j].start != a
  {
    if bs == [] || bs[0].start == a then 0 else 1 + Find(bs[1..], a)
  }

  /** Takes `n` units from the front of a free block. */
  function CutFront(b: Block, n: nat): seq<Block>
    requires n <= b.size
  {
    if b.size > n then [Block(b.start, n, false), Block(b.start + n, b.size - n, true)] else [b.(free := false)]
  }

  function Carve(bs: seq<Block>, i: nat, n: nat): seq<Block>
    requires i < |bs| && n <= bs[i].size
  {
    bs[..i] + CutFront(bs[i], n) + bs[i + 1..]
  }

  /** Frees block `i` and merges it with a free successor and a free predecessor. */
  function Release(bs: seq<Block>, i: nat): seq<Block>
    requires i < |bs|
  {
    var after := i + 1 < |bs| && bs[i + 1].free;
    var before := 0 < i && bs[i - 1].free;
    bs[..if before then i - 1 else i]
    + [Block(if before then bs[i - 1].start else bs[i].start,
             bs[i].size + (if after then bs[i + 1].size else 0) + (if before then bs[i - 1].size else 0), true)]
    + bs[if after then i + 2 else i + 1..]
  }

  /** The same in three steps, as the managers do it. */
  function MergeNext(bs: seq<Block>, i: nat): seq<Block>
    requires i < |bs|
  {
    if i + 1 < |bs| && bs[i + 1].free then bs[..i] + [bs[i].(size := bs[i].size + bs[i + 1].size)] + bs[i + 2..] else bs
  }

  function MergePrevious(bs: seq<Block>, i: nat): seq<Block>
    requires i < |bs|
  {
    if 0 < i && bs[i - 1].free then
      bs[..i - 1] + [Block(bs[i - 1].start, bs[i].size + bs[i - 1].size, bs[i].free)] + bs[i + 1..]
    else bs
  }

  lemma SplitOut(bs: seq<Block>, i: nat)
    requires i < |bs|
    ensures bs == bs[..i] + [bs[i]] + bs[i + 1..]
  {}

  lemma ReleaseStages(bs: seq<Block>, i: nat)
    requires i < |bs|
    ensures var m := MergePrevious(MergeNext(bs, i), i);
            var j := if 0 < i && bs[i - 1].free then i - 1 else i;
            Release(bs, i) == m[j := m[j].(free := true)]
  {
    if i + 1 < |bs| && bs[i + 1].free {
      NextTakenOver(bs, i);
      ReleaseMerged(bs, i, bs[i + 2..], bs[i].(size := bs[i].size + bs[i + 1].size));
    } else {
      NextKept(bs, i);
      ReleaseMerged(bs, i, bs[i + 1..], bs[i]);
    }
  }

  /** The first step, if the successor is free and if it is not. */
  lemma NextTakenOver(bs: seq<Block>, i: nat)
    requires i + 1 < |bs| && bs[i + 1].free
    ensures var b := bs[i].(size := bs[i].size + bs[i + 1].size);
            MergeNext(bs, i) == bs[..i] + [b] + bs[i + 2..] && Release(bs, i) == Released(bs, i, bs[i + 2..], b)
  {}

  lemma NextKept(bs: seq<Block>, i: nat)
    requires i < |bs| && !(i + 1 < |bs| && bs[i + 1].free)
    ensures MergeNext(bs, i) == bs[..i] + [bs[i]] + bs[i + 1..] && Release(bs, i) == Released(bs, i, bs[i + 1..], bs[i])
  {
    SplitOut(bs, i);
    assert MergeNext(bs, i) == bs;
  }

  /** Block `b` in place of block `i`, freed and merged with a free predecessor, before `rest`. */
  function Released(bs: seq<Block>, i: nat, rest: seq<Block>, b: Block): seq<Block>
    requires i < |bs|
  {
    if 0 < i && bs[i - 1].free then
      bs[..i - 1] + [Block(bs[i - 1].start, b.size + bs[i - 1].size, true)] + rest
    else bs[..i] + [b.(free := true)] + rest
  }

  /** The last two steps, on a block `b` that has taken over a free successor. */
  lemma ReleaseMerged(bs: seq<Block>, i: nat, rest: seq<Block>, b: Block)
    requires i < |bs|
    ensures var m := MergePrevious(bs[..i] + [b] + rest, i);
            var j := if 0 < i && bs[i - 1].free then i - 1 else i;
            j < |m| && m[j := m[j].(free := true)] == Released(bs, i, rest, b)
  {
    var merged := bs[..i] + [b] + rest;
    assert merged[i] == b && merged[i + 1..] == rest;
    if 0 < i && bs[i - 1].free {
      assert merged[i - 1] == bs[i - 1] && merged[..i - 1] == bs[..i - 1];
      assert |merged[..i - 1]| == i - 1;
    } else {
      assert MergePrevious(merged, i) == merged && |bs[..i]| == i;
    }
  }

  function Allocate(bs: seq<Block>, n: nat): (Result<nat>, seq<Block>) {
    var i := FirstFit(bs, n);
    if i < |bs| then (Ok(bs[i].start), Carve(bs, i, n)) else (Err(BadAlloc), bs)
  }

  // ----- the invariant -----

  /** Blocks of positive size tile [start, end) in address order, no two free ones touching;
      `free` says whether the block before them is free. */
  ghost predicate Chain(start: nat, end: nat, free: bool, bs: seq<Block>)
    decreases bs
  {
    if bs == [] then start == end
    else
      && bs[0].start == start && 0 < bs[0].size && !(free && bs[0].free)
      && Chain(start + bs[0].size, end, bs[0].free, bs[1..])
  }

  /** An empty arena is one free block of size zero. */
  ghost predicate Valid(base: nat, end: nat, bs: seq<Block>) {
    base <= end && if base == end then bs == [Block(base, 0, true)] else Chain(base, end, false, bs)
  }

  ghost function Live(bs: seq<Block>): set<Extent> {
    if bs == [] then {} else (if bs[0].free then {} else {Extent(bs[0].start, bs[0].size)}) + Live(bs[1..])
  }

  function LastFree(free: bool, bs: seq<Block>): bool {
    if bs == [] then free else bs[|bs| - 1].free
  }

  function StartAt(bs: seq<Block>, i: nat, end: nat): nat {
    if i < |bs| then bs[i].start else end
  }

  lemma WholeArena(base: nat, size: nat)
    ensures Valid(base, base + size, [Block(base, size, true)]) && Live([Block(base, size, true)]) == {}
  {
    assert [Block(base, size, true)][1..] == [];
  }

  lemma {:induction false} Split(start: nat, end: nat, free: bool, bs: seq<Block>, i: nat)
    requires Chain(start, end, free, bs) && i <= |bs|
    ensures Chain(start, StartAt(bs, i, end), free, bs[..i])
    ensures Chain(StartAt(bs, i, end), end, LastFree(free, bs[..i]), bs[i..])
    ensures Live(bs) == Live(bs[..i]) + Live(bs[i..])
    decreases bs
  {
    if i == 0 {
      assert bs[..0] == [] && bs[0..] == bs;
    } else {
      Split(start + bs[0].size, end, bs[0].free, bs[1..], i - 1);
      assert bs[..i] == [bs[0]] + bs[1..][..i - 1] && bs[1..][i - 1..] == bs[i..];
    }
  }

  lemma {:induction false} Join(start: nat, mid: nat, end: nat, free: bool, xs: seq<Block>, ys: seq<Block>)
    requires Chain(start, mid, free, xs) && Chain(mid, end, LastFree(free, xs), ys)
    ensures Chain(start, end, free, xs + ys) && Live(xs + ys) == Live(xs) + Live(ys)
    decreases xs
  {
    if xs == [] {
      assert xs + ys == ys;
    } else {
      Join(start + xs[0].size, mid, end, xs[0].free, xs[1..], ys);
      assert (xs + ys)[1..] == xs[1..] + ys;
    }
  }

  lemma {:induction false} Bounds(start: nat, end: nat, free: bool, bs: seq<Block>)
    requires Chain(start, end, free, bs)
    ensures start <= end && (bs != [] ==> start < end)
    ensures forall e :: e in Live(bs) ==> start <= e.start && 0 < e.size && e.start + e.size <= end
    decreases bs
  {
    if bs == [] {
    } else {
      Bounds(start + bs[0].size, end, bs[0].free, bs[1..]);
    }
  }

  // ----- allocation takes the lowest free run -----

  ghost predicate Apart(e: Extent, a: nat, n: nat) {
    e.start + e.size <= a || a + n <= e.start
  }

  /** `n` contiguous units of [start, end) from `a` on that no live allocation uses. */
  ghost predicate FreeRun(start: nat, end: nat, live: set<Extent>, a: nat, n: nat) {
    start <= a && a + n <= end && forall e :: e in live ==> Apart(e, a, n)
  }

  /** A run that begins inside a free block ends inside it. */
  lemma RunInHead(start: nat, end: nat, free: bool, bs: seq<Block>, a: nat, n: nat)
    requires Chain(start, end, free, bs) && 0 < n && FreeRun(start, end, Live(bs), a, n)
    requires bs != [] && a < start + bs[0].size
    ensures bs[0].free && a + n <= start + bs[0].size
  {
    var b := bs[0];
    assert !b.free ==> Extent(start, b.size) in Live(bs);
    assert b.free && 1 < |bs| ==> Extent(bs[1].start, bs[1].size) in Live(bs[1..]);
  }

  lemma {:induction false} LowestRun(start: nat, end: nat, free: bool, bs: seq<Block>, n: nat, a: nat)
    requires Chain(start, end, free, bs) && 0 < n && FreeRun(start, end, Live(bs), a, n)
    ensures FirstFit(bs, n) < |bs| && bs[FirstFit(bs, n)].start <= a
    decreases bs
  {
    if bs == [] {
    } else if a < start + bs[0].size {
      RunInHead(start, end, free, bs, a, n);
    } else {
      LowestRun(start + bs[0].size, end, bs[0].free, bs[1..], n, a);
    }
  }

  lemma FreeBlockIsRun(start: nat, end: nat, free: bool, bs: seq<Block>, i: nat)
    requires Chain(start, end, free, bs) && i < |bs| && bs[i].free
    ensures FreeRun(start, end, Live(bs), bs[i].start, bs[i].size)
  {
    Split(start, end, free, bs, i);
    Bounds(start, bs[i].start, free, bs[..i]);
    var rest := bs[i..];
    Bounds(bs[i].start + bs[i].size, end, true, rest[1..]);
  }

  /** Allocation succeeds exactly if there is a free run, and then returns the lowest one. */
  lemma AllocateLowest(base: nat, end: nat, bs: seq<Block>, n: nat)
    requires Valid(base, end, bs) && 0 < n
    ensures Allocate(bs, n).0.Ok? <==> exists a :: FreeRun(base, end, Live(bs), a, n)
    ensures Allocate(bs, n).0.Ok? ==>
              var a := Allocate(bs, n).0.value;
              && FreeRun(base, end, Live(bs), a, n)
              && forall a' :: FreeRun(base, end, Live(bs), a', n) ==> a <= a'
  {
    if base != end {
      forall a | FreeRun(base, end, Live(bs), a, n)
        ensures FirstFit(bs, n) < |bs| && bs[FirstFit(bs, n)].start <= a
      {
        LowestRun(base, end, false, bs, n, a);
      }
      var i := FirstFit(bs, n);
      assert Allocate(bs, n).0.Ok? <==> i < |bs|;
      if i < |bs| {
        FreeBlockIsRun(base, end, false, bs, i);
        assert forall e :: e in Live(bs) && Apart(e, bs[i].start, bs[i].size) ==> Apart(e, bs[i].start, n);
        assert FreeRun(base, end, Live(bs), bs[i].start, n);
        assert Allocate(bs, n).0.Ok? && exists a :: FreeRun(base, end, Live(bs), a, n);
      } else {
        assert forall a :: !FreeRun(base, end, Live(bs), a, n);
        assert !Allocate(bs, n).0.Ok?;
      }
    } else {
      assert forall a :: !FreeRun(base, end, Live(bs), a, n);
    }
  }

  /** Replacing the middle of a chain. */
  lemma Splice(start: nat, a: nat, b: nat, end: nat, xs: seq<Block>, ys: seq<Block>, zs: seq<Block>)
    requires Chain(start, a, false, xs) && Chain(a, b, LastFree(false, xs), ys)
    requires ys != [] && Chain(b, end, ys[|ys| - 1].free, zs)
    ensures Chain(start, end, false, xs + ys + zs) && Live(xs + ys + zs) == Live(xs) + Live(ys) + Live(zs)
  {
    Join(start, a, b, false, xs, ys);
    Join(start, b, end, false, xs + ys, zs);
  }

  /** The neighbourhood of a block. */
  lemma Around(start: nat, end: nat, bs: seq<Block>, i: nat)
    requires Chain(start, end, false, bs) && i < |bs|
    ensures Chain(start, bs[i].start, false, bs[..i]) && 0 < bs[i].size && !(LastFree(false, bs[..i]) && bs[i].free)
    ensures Chain(bs[i].start + bs[i].size, end, bs[i].free, bs[i + 1..])
    ensures Live(bs) == Live(bs[..i]) + (if bs[i].free then {} else {Extent(bs[i].start, bs[i].size)})
            + Live(bs[i + 1..])
  {
    Split(start, end, false, bs, i);
    var rest := bs[i..];
    assert rest[0] == bs[i] && rest[1..] == bs[i + 1..];
  }

  /** Carving keeps the invariant and adds one live allocation. */
  lemma CarveValid(base: nat, end: nat, bs: seq<Block>, i: nat, n: nat)
    requires Valid(base, end, bs) && i < |bs| && Fits(bs[i], n) && 0 < n
    ensures Valid(base, end, Carve(bs, i, n))
    ensures Live(Carve(bs, i, n)) == Live(bs) + {Extent(bs[i].start, n)}
  {
    CarveChain(base, end, bs, i, n);
    Around(base, end, bs, i);
    Reordered(Live(bs[..i]), Live(bs[i + 1..]), {Extent(bs[i].start, n)});
  }

  lemma CarveChain(base: nat, end: nat, bs: seq<Block>, i: nat, n: nat)
    requires Chain(base, end, false, bs) && i < |bs| && Fits(bs[i], n) && 0 < n
    ensures Chain(base, end, false, Carve(bs, i, n))
    ensures Live(Carve(bs, i, n)) == Live(bs[..i]) + {Extent(bs[i].start, n)} + Live(bs[i + 1..])
  {
    var b := bs[i];
    Around(base, end, bs, i);
    CutFrontValid(b, n, LastFree(false, bs[..i]));
    Loosen(b.start + b.size, end, bs[i + 1..], b.size > n);
    Splice(base, b.start, b.start + b.size, end, bs[..i], CutFront(b, n), bs[i + 1..]);
  }

  lemma Reordered(before: set<Extent>, after: set<Extent>, own: set<Extent>)
    ensures before + own + after == before + {} + after + own
  {}

  lemma CutFrontValid(b: Block, n: nat, free: bool)
    requires Fits(b, n) && 0 < n
    ensures Chain(b.start, b.start + b.size, free, CutFront(b, n)) && Live(CutFront(b, n)) == {Extent(b.start, n)}
  {
    var bs := CutFront(b, n);
    if b.size > n {
      assert bs[1..] == [bs[1]] && bs[1..][1..] == [];
      assert Live([bs[1]]) == {};
    } else {
      assert bs[1..] == [];
    }
  }

  lemma Loosen(start: nat, end: nat, bs: seq<Block>, free: bool)
    requires Chain(start, end, true, bs)
    ensures Chain(start, end, free, bs)
  {}

  // ----- release -----

  /** The blocks from the free space that releasing block `i` creates, downwards and upwards. */
  lemma Below(base: nat, end: nat, bs: seq<Block>, i: nat, lo: nat)
    requires Chain(base, end, false, bs) && i < |bs| && lo == if 0 < i && bs[i - 1].free then i - 1 else i
    ensures Chain(base, bs[lo].start, false, bs[..lo]) && !LastFree(false, bs[..lo])
    ensures bs[lo].start + (if lo < i then bs[i - 1].size else 0) == bs[i].start
    ensures Live(bs[..lo]) == Live(bs[..i])
  {
    Around(base, end, bs, i);
    if lo < i {
      Around(base, bs[i].start, bs[..i], lo);
      assert bs[..i][..lo] == bs[..lo];
    }
  }

  lemma Above(base: nat, end: nat, bs: seq<Block>, i: nat, hi: nat)
    requires Chain(base, end, false, bs) && i < |bs| && hi == if i + 1 < |bs| && bs[i + 1].free then i + 2 else i + 1
    ensures Chain(bs[i].start + bs[i].size + (if i + 1 < hi then bs[i + 1].size else 0), end, true, bs[hi..])
    ensures Live(bs[hi..]) == Live(bs[i + 1..])
  {
    Around(base, end, bs, i);
    if i + 1 < hi {
      Around(base, end, bs, i + 1);
      assert bs[i + 1..][1..] == bs[hi..];
    }
  }

  lemma ReleaseChain(base: nat, end: nat, bs: seq<Block>, i: nat)
    requires Chain(base, end, false, bs) && i < |bs|
    ensures Chain(base, end, false, Release(bs, i))
    ensures Live(Release(bs, i)) == Live(bs[..i]) + Live(bs[i + 1..])
  {
    var lo := if 0 < i && bs[i - 1].free then i - 1 else i;
    var hi := if i + 1 < |bs| && bs[i + 1].free then i + 2 else i + 1;
    Below(base, end, bs, i, lo);
    Above(base, end, bs, i, hi);
    MergedBlock(bs, i, lo, hi);
    assert 0 < bs[i].size by { Around(base, end, bs, i); }
    FreeBetween(base, end, bs[..lo], Release(bs, i)[lo], bs[hi..]);
  }

  /** Releasing block `i` puts one block in place of the blocks from `lo` to `hi`. */
  lemma MergedBlock(bs: seq<Block>, i: nat, lo: nat, hi: nat)
    requires i < |bs| && lo == if 0 < i && bs[i - 1].free then i - 1 else i
    requires hi == if i + 1 < |bs| && bs[i + 1].free then i + 2 else i + 1
    ensures lo < |Release(bs, i)| && Release(bs, i) == bs[..lo] + [Release(bs, i)[lo]] + bs[hi..]
    ensures Release(bs, i)[lo]
            == Block(bs[lo].start, bs[i].size + (if i + 1 < hi then bs[i + 1].size else 0)
                                   + (if lo < i then bs[i - 1].size else 0), true)
  {}

  /** A free block between two chains that do not touch it with a free block. */
  lemma FreeBetween(base: nat, end: nat, xs: seq<Block>, b: Block, zs: seq<Block>)
    requires Chain(base, b.start, false, xs) && !LastFree(false, xs) && b.free && 0 < b.size
    requires Chain(b.start + b.size, end, true, zs)
    ensures Chain(base, end, false, xs + [b] + zs) && Live(xs + [b] + zs) == Live(xs) + Live(zs)
  {
    assert [b][1..] == [];
    Splice(base, b.start, b.start + b.size, end, xs, [b], zs);
  }

  /** Releasing keeps the invariant and removes exactly that block's allocation, if it had one. */
  lemma ReleaseValid(base: nat, end: nat, bs: seq<Block>, i: nat)
    requires Valid(base, end, bs) && i < |bs| && base < end
    ensures Valid(base, end, Release(bs, i))
    ensures Live(Release(bs, i)) == Live(bs) - {Extent(bs[i].start, bs[i].size)}
  {
    OwnExtent(base, end, bs, i);
    ReleaseChain(base, end, bs, i);
    var x := Extent(bs[i].start, bs[i].size);
    Without(Live(bs), Live(bs[..i]), if bs[i].free then {} else {x}, Live(bs[i + 1..]), x);
  }

  lemma OwnExtent(start: nat, end: nat, bs: seq<Block>, i: nat)
    requires Chain(start, end, false, bs) && i < |bs|
    ensures var x := Extent(bs[i].start, bs[i].size);
            && x !in Live(bs[..i]) && x !in Live(bs[i + 1..])
            && Live(bs) == Live(bs[..i]) + (if bs[i].free then {} else {x}) + Live(bs[i + 1..])
  {
    Around(start, end, bs, i);
    Bounds(start, bs[i].start, false, bs[..i]);
    Bounds(bs[i].start + bs[i].size, end, bs[i].free, bs[i + 1..]);
  }

  lemma Without(all: set<Extent>, before: set<Extent>, own: set<Extent>, after: set<Extent>, x: Extent)
    requires all == before + own + after && own <= {x} && x !in before && x !in after
    ensures before + after == all - {x}
  {}

  // ----- the canonical form -----

  lemma {:induction false} Canonical(start: nat, end: nat, free: bool, xs: seq<Block>, ys: seq<Block>)
    requires Chain(start, end, free, xs) && Chain(start, end, free, ys) && Live(xs) == Live(ys)
    ensures xs == ys
    decreases xs
  {
    Bounds(start, end, free, xs);
    Bounds(start, end, free, ys);
    if xs == [] || ys == [] {
    } else {
      Bounds(start + xs[0].size, end, xs[0].free, xs[1..]);
      Bounds(start + ys[0].size, end, ys[0].free, ys[1..]);
      SameHead(start, end, free, xs, ys);
      SameHead(start, end, free, ys, xs);
      assert Live(xs[1..]) == Live(ys[1..]);
      Canonical(start + xs[0].size, end, xs[0].free, xs[1..], ys[1..]);
    }
  }

  lemma SameHead(start: nat, end: nat, free: bool, xs: seq<Block>, ys: seq<Block>)
    requires Chain(start, end, free, xs) && Chain(start, end, free, ys) && Live(xs) == Live(ys)
    requires xs != [] && ys != []
    ensures xs[0].free ==> ys[0].free && xs[0].size >= ys[0].size
    ensures !xs[0].free ==> ys[0] == xs[0]
  {
    Bounds(start + xs[0].size, end, xs[0].free, xs[1..]);
    Bounds(start + ys[0].size, end, ys[0].free, ys[1..]);
    assert !xs[0].free ==> Extent(start, xs[0].size) in Live(ys);
    assert !ys[0].free ==> Extent(start, ys[0].size) in Live(xs);
    assert xs[0].free && 1 < |xs| ==> Extent(xs[1].start, xs[1].size) in Live(xs[1..]);
  }

  /** The block list is a function of the arena and the live allocations. */
  lemma CanonicalForm(base: nat, end: nat, xs: seq<Block>, ys: seq<Block>)
    requires Valid(base, end, xs) && Valid(base, end, ys) && Live(xs) == Live(ys)
    ensures xs == ys
  {
    if base != end { Canonical(base, end, false, xs, ys); }
  }

  /** Once everything has been released, in whatever order, one free block is left. */
  lemma AllReleased(base: nat, end: nat, bs: seq<Block>)
    requires Valid(base, end, bs)
    ensures Live(bs) == {} <==> bs == [Block(base, end - base, true)]
  {
    if Live(bs) == {} { CanonicalForm(base, end, bs, [Block(base, end - base, true)]); }
  }

  /** Releasing what was just allocated restores the exact list. */
  lemma AllocateRelease(base: nat, end: nat, bs: seq<Block>, n: nat)
    requires Valid(base, end, bs) && 0 < n && FirstFit(bs, n) < |bs|
    ensures var i := FirstFit(bs, n);
            var after := Carve(bs, i, n);
            Find(after, bs[i].start) == i && after[i] == Block(bs[i].start, n, false) && Release(after, i) == bs
  {
    var i := FirstFit(bs, n);
    var after := Carve(bs, i, n);
    CarveValid(base, end, bs, i, n);
    AllocateLowest(base, end, bs, n);
    StartsDistinct(base, end, false, after, i);
    ReleaseValid(base, end, after, i);
    assert Extent(bs[i].start, n) !in Live(bs) by {
      assert !Apart(Extent(bs[i].start, n), bs[i].start, n);
    }
    CanonicalForm(base, end, Release(after, i), bs);
  }

  lemma StartsDistinct(start: nat, end: nat, free: bool, bs: seq<Block>, i: nat)
    requires Chain(start, end, free, bs) && i < |bs|
    ensures Find(bs, bs[i].start) == i
  {
    var j := Find(bs, bs[i].start);
    if j < i {
      Split(start, end, free, bs, j);
      var rest := bs[j..];
      Split(start + (bs[j].start - start) + bs[j].size, end, bs[j].free, rest[1..], i - j - 1);
      Bounds(bs[j].start + bs[j].size, bs[i].start, bs[j].free, rest[1..][..i - j - 1]);
    }
  }

  /** The order in which two allocations are released does not matter. */
  lemma ReleaseCommutes(base: nat, end: nat, bs: seq<Block>, a: nat, b: nat)
    requires Valid(base, end, bs) && base < end && a != b
    requires Find(bs, a) < |bs| && Find(bs, b) < |bs| && !bs[Find(bs, a)].free && !bs[Find(bs, b)].free
    ensures var ra, rb := Release(bs, Find(bs, a)), Release(bs, Find(bs, b));
            && Find(ra, b) < |ra| && Find(rb, a) < |rb| && Release(ra, Find(ra, b)) == Release(rb, Find(rb, a))
  {
    var i, j := Find(bs, a), Find(bs, b);
    var ra, rb := Release(bs, i), Release(bs, j);
    ReleaseValid(base, end, bs, i);
    ReleaseValid(base, end, bs, j);
    LiveBlock(base, end, false, bs, j);
    LiveBlock(base, end, false, bs, i);
    BlockOf(base, end, false, ra, Extent(b, bs[j].size));
    BlockOf(base, end, false, rb, Extent(a, bs[i].size));
    ReleasedTwice(base, end, Live(bs), ra, Find(ra, b), rb, Find(rb, a), Extent(a, bs[i].size), Extent(b, bs[j].size));
  }

  lemma ReleasedTwice(base: nat, end: nat, live: set<Extent>, ra: seq<Block>, i: nat, rb: seq<Block>, j: nat, x: Extent,
                      y: Extent)
    requires Valid(base, end, ra) && Valid(base, end, rb) && base < end && i < |ra| && j < |rb|
    requires Live(ra) == live - {x} && ra[i].start == y.start && ra[i].size == y.size
    requires Live(rb) == live - {y} && rb[j].start == x.start && rb[j].size == x.size
    ensures Release(ra, i) == Release(rb, j)
  {
    ReleaseOf(base, end, ra, i, live - {x}, y);
    ReleaseOf(base, end, rb, j, live - {y}, x);
    SameLive(base, end, Release(ra, i), Release(rb, j), live, x, y);
  }

  lemma SameLive(base: nat, end: nat, xs: seq<Block>, ys: seq<Block>, live: set<Extent>, x: Extent, y: Extent)
    requires Valid(base, end, xs) && Valid(base, end, ys)
    requires Live(xs) == live - {x} - {y} && Live(ys) == live - {y} - {x}
    ensures xs == ys
  {
    assert Live(xs) == Live(ys);
    CanonicalForm(base, end, xs, ys);
  }

  lemma ReleaseOf(base: nat, end: nat, bs: seq<Block>, i: nat, live: set<Extent>, x: Extent)
    requires Valid(base, end, bs) && base < end && i < |bs| && Live(bs) == live
    requires bs[i].start == x.start && bs[i].size == x.size
    ensures Valid(base, end, Release(bs, i)) && Live(Release(bs, i)) == live - {x}
  {
    ReleaseValid(base, end, bs, i);
    assert Extent(bs[i].start, bs[i].size) == x;
  }

  lemma LiveBlock(start: nat, end: nat, free: bool, bs: seq<Block>, i: nat)
    requires Chain(start, end, free, bs) && i < |bs|
    ensures !bs[i].free ==> Extent(bs[i].start, bs[i].size) in Live(bs)
  {
    Split(start, end, free, bs, i);
  }

  lemma {:induction false} BlockOf(start: nat, end: nat, free: bool, bs: seq<Block>, e: Extent)
    requires Chain(start, end, free, bs) && e in Live(bs)
    ensures Find(bs, e.start) < |bs| && bs[Find(bs, e.start)] == Block(e.start, e.size, false)
    decreases bs
  {
    if bs[0].free || e != Extent(bs[0].start, bs[0].size) {
      Bounds(start + bs[0].size, end, bs[0].free, bs[1..]);
      BlockOf(start + bs[0].size, end, bs[0].free, bs[1..], e);
    }
  }

  // ----- gaps -----

  /** A maximal free run. */
  ghost predicate Gap(start: nat, end: nat, live: set<Extent>, a: nat, n: nat) {
    && (0 < n || start == end) && FreeRun(start, end, live, a, n)
    && (a == start || exists e :: e in live && e.start + e.size == a)
    && (a + n == end || exists e :: e in live && e.start == a + n)
  }

  /** The free blocks are exactly the gaps. */
  lemma {:induction false} GapIsBlock(start: nat, end: nat, free: bool, bs: seq<Block>, a: nat, n: nat)
    requires Chain(start, end, free, bs) && start < end && Gap(start, end, Live(bs), a, n)
    ensures Find(bs, a) < |bs| && bs[Find(bs, a)] == Block(a, n, true)
    decreases bs
  {
    var mid := start + bs[0].size;
    Bounds(mid, end, bs[0].free, bs[1..]);
    if a < mid {
      RunInHead(start, end, free, bs, a, n);
    } else {
      GapIsBlock(mid, end, bs[0].free, bs[1..], a, n);
    }
  }

  lemma BlockIsGap(base: nat, end: nat, bs: seq<Block>, i: nat)
    requires Valid(base, end, bs) && i < |bs| && bs[i].free
    ensures Gap(base, end, Live(bs), bs[i].start, bs[i].size)
  {
    if base != end {
      FreeBlockIsRun(base, end, false, bs, i);
      Split(base, end, false, bs, i);
      var rest := bs[i..];
      if 0 < i {
        Split(base, end, false, bs, i - 1);
        var before := bs[i - 1..];
        assert before[0] == bs[i - 1] && before[1..] == rest;
        LiveBlock(base, end, false, bs, i - 1);
        assert bs[i - 1].start + bs[i - 1].size == bs[i].start;
        assert Extent(bs[i - 1].start, bs[i - 1].size) in Live(bs);
      }
      if i + 1 < |bs| {
        assert rest[1..][0] == bs[i + 1];
        LiveBlock(base, end, false, bs, i + 1);
        assert Extent(bs[i + 1].start, bs[i + 1].size) in Live(bs);
      }
    }
  }

  // ----- the abstract allocator -----

  /** Allocation in terms of live extents alone: the lowest free run, or failure if there is none. */
  ghost predicate Allocates(base: nat, end: nat, live: set<Extent>, n: nat, r: Result<nat>, live': set<Extent>) {
    match r
    case Ok(a) =>
      && FreeRun(base, end, live, a, n)
      && (forall b :: FreeRun(base, end, live, b, n) ==> a <= b)
      && live' == live + {Extent(a, n)}
    case Err(e) => e.BadAlloc? && live' == live && forall b :: !FreeRun(base, end, live, b, n)
  }

  /** `a` is where something of `n` units starts: a live allocation or a gap. */
  ghost predicate Starts(base: nat, end: nat, live: set<Extent>, a: nat, n: nat) {
    Extent(a, n) in live || Gap(base, end, live, a, n)
  }

  lemma AllocateRefines(base: nat, end: nat, bs: seq<Block>, n: nat)
    requires Valid(base, end, bs) && 0 < n
    ensures Valid(base, end, Allocate(bs, n).1)
    ensures Allocates(base, end, Live(bs), n, Allocate(bs, n).0, Live(Allocate(bs, n).1))
  {
    AllocateLowest(base, end, bs, n);
    var i := FirstFit(bs, n);
    if i < |bs| { CarveValid(base, end, bs, i, n); }
  }

  /** What a search by start address finds. */
  lemma FindRefines(base: nat, end: nat, bs: seq<Block>, a: nat, n: nat)
    requires Valid(base, end, bs)
    ensures Starts(base, end, Live(bs), a, n) <==> Find(bs, a) < |bs| && bs[Find(bs, a)].size == n
    ensures Extent(a, n) in Live(bs) <==> Find(bs, a) < |bs| && bs[Find(bs, a)] == Block(a, n, false)
  {
    var i := Find(bs, a);
    if base != end {
      if Extent(a, n) in Live(bs) {
        BlockOf(base, end, false, bs, Extent(a, n));
      } else if Gap(base, end, Live(bs), a, n) {
        GapIsBlock(base, end, false, bs, a, n);
      }
      if i < |bs| && bs[i].size == n {
        LiveBlock(base, end, false, bs, i);
      }
    }
    if i < |bs| && bs[i].free { BlockIsGap(base, end, bs, i); }
  }

  lemma ReleaseRefines(base: nat, end: nat, bs: seq<Block>, i: nat)
    requires Valid(base, end, bs) && i < |bs|
    ensures Valid(base, end, Release(bs, i))
    ensures Live(Release(bs, i)) == Live(bs) - {Extent(bs[i].start, bs[i].size)}
    ensures bs[i].free ==> Release(bs, i) == bs
  {
    if base != end {
      ReleaseValid(base, end, bs, i);
      if bs[i].free { FreeIsUntouched(base, end, bs, i); }
    }
  }

  lemma FreeIsUntouched(base: nat, end: nat, bs: seq<Block>, i: nat)
    requires Chain(base, end, false, bs) && base < end && i < |bs| && bs[i].free
    ensures Release(bs, i) == bs
  {
    ReleaseChain(base, end, bs, i);
    Around(base, end, bs, i);
    Canonical(base, end, false, Release(bs, i), bs);
  }
}
