/** The memory allocator of a segment: allocate, canAllocate and deallocate over the block list,
    and the allocator on sets of live extents that it refines. */
module MemoryManager {
  import opened FreeList

  const NULL := 0

  datatype Call = AllocateCall(n: nat) | CanAllocateCall(n: nat) | DeallocateCall(address: nat, n: nat)

  datatype Reply = Address(a: Result<nat>) | Possible(b: bool) | Released(r: Result<()>)

  // ----- the calls on the block list -----

  function AllocateBlocks(bs: seq<Block>, n: nat): (Result<nat>, seq<Block>) {
    if n == 0 then (Ok(NULL), bs) else FreeList.Allocate(bs, n)
  }

  predicate CanAllocateBlocks(bs: seq<Block>, n: nat) {
    n == 0 || FirstFit(bs, n) < |bs|
  }

  function DeallocateBlocks(bs: seq<Block>, a: nat, n: nat): (Result<()>, seq<Block>) {
    if a == NULL then (Ok(()), bs)
    else
      var i := Find(bs, a);
      if i == |bs| then (Err(BadAlloc), bs)
      else if bs[i].size != n then (Err(NotReleased), bs)
      else (Ok(()), Release(bs, i))
  }

  function Apply(bs: seq<Block>, c: Call): (Reply, seq<Block>) {
    match c
    case AllocateCall(n) => var (r, after) := AllocateBlocks(bs, n); (Address(r), after)
    case CanAllocateCall(n) => (Possible(CanAllocateBlocks(bs, n)), bs)
    case DeallocateCall(a, n) => var (r, after) := DeallocateBlocks(bs, a, n); (Released(r), after)
  }

  function Run(bs: seq<Block>, calls: seq<Call>): (seq<Reply>, seq<Block>)
    decreases calls
  {
    if calls == [] then ([], bs)
    else
      var (reply, next) := Apply(bs, calls[0]);
      var (replies, after) := Run(next, calls[1..]);
      ([reply] + replies, after)
  }

  // ----- the abstract allocator -----

  ghost predicate AbstractStep(base: nat, end: nat, live: set<Extent>, c: Call, reply: Reply, live': set<Extent>) {
    match c
    case AllocateCall(n) =>
      reply.Address?
      && if n == 0 then reply.a == Ok(NULL) && live' == live else Allocates(base, end, live, n, reply.a, live')
    case CanAllocateCall(n) =>
      live' == live && reply == Possible(n == 0 || exists a :: FreeRun(base, end, live, a, n))
    case DeallocateCall(a, n) =>
      reply.Released?
      && if a == NULL then reply.r == Ok(()) && live' == live
         else if Starts(base, end, live, a, n) then reply.r == Ok(()) && live' == live - {Extent(a, n)}
         else live' == live
              && reply.r == Err(if exists m :: Starts(base, end, live, a, m) then NotReleased else BadAlloc)
  }

  ghost predicate AbstractRun(base: nat, end: nat, live: set<Extent>, calls: seq<Call>, replies: seq<Reply>,
                              live': set<Extent>)
    decreases calls
  {
    if calls == [] then replies == [] && live' == live
    else
      && replies != []
      && exists mid ::
           AbstractStep(base, end, live, calls[0], replies[0], mid)
           && AbstractRun(base, end, mid, calls[1..], replies[1..], live')
  }

  lemma ApplyRefines(base: nat, end: nat, bs: seq<Block>, c: Call)
    requires Valid(base, end, bs)
    ensures Valid(base, end, Apply(bs, c).1)
    ensures AbstractStep(base, end, Live(bs), c, Apply(bs, c).0, Live(Apply(bs, c).1))
  {
    match c {
      case AllocateCall(n) => if 0 < n { AllocateRefines(base, end, bs, n); }
      case CanAllocateCall(n) => if 0 < n { AllocateLowest(base, end, bs, n); }
      case DeallocateCall(a, n) => DeallocateRefines(base, end, bs, a, n);
    }
  }

  lemma DeallocateRefines(base: nat, end: nat, bs: seq<Block>, a: nat, n: nat)
    requires Valid(base, end, bs)
    ensures var (r, after) := DeallocateBlocks(bs, a, n);
            && Valid(base, end, after)
            && AbstractStep(base, end, Live(bs), DeallocateCall(a, n), Released(r), Live(after))
  {
    var i := Find(bs, a);
    forall m ensures Starts(base, end, Live(bs), a, m) <==> i < |bs| && bs[i].size == m {
      FindRefines(base, end, bs, a, m);
    }
    if i < |bs| {
      assert Starts(base, end, Live(bs), a, bs[i].size);
      ReleaseRefines(base, end, bs, i);
    }
  }

  /** After any sequence of calls, failing ones included, the block list is valid and every reply
      is the one the allocator on sets of extents gives. */
  lemma {:induction false} RunRefines(base: nat, end: nat, bs: seq<Block>, calls: seq<Call>)
    requires Valid(base, end, bs)
    ensures Valid(base, end, Run(bs, calls).1)
    ensures AbstractRun(base, end, Live(bs), calls, Run(bs, calls).0, Live(Run(bs, calls).1))
    decreases calls
  {
    if calls == [] {
    } else {
      var (reply, next) := Apply(bs, calls[0]);
      ApplyRefines(base, end, bs, calls[0]);
      RunRefines(base, end, next, calls[1..]);
      var (replies, after) := Run(next, calls[1..]);
      assert ([reply] + replies)[1..] == replies;
    }
  }

  /** The abstract allocator leaves no choice, so its replies are the only possible ones. */
  lemma AbstractDeterministic(base: nat, end: nat, live: set<Extent>, c: Call, r1: Reply, l1: set<Extent>,
                              r2: Reply, l2: set<Extent>)
    requires AbstractStep(base, end, live, c, r1, l1) && AbstractStep(base, end, live, c, r2, l2)
    ensures r1 == r2 && l1 == l2
  {
    if c.AllocateCall? && 0 < c.n {
      assert r1.a.Ok? ==> FreeRun(base, end, live, r1.a.value, c.n);
      assert r2.a.Ok? ==> FreeRun(base, end, live, r2.a.value, c.n);
    }
  }

  /** canAllocate(n) tells whether allocate(n) succeeds, and that is whether n free units lie in a row. */
  lemma CanAllocateExact(base: nat, end: nat, bs: seq<Block>, n: nat)
    requires Valid(base, end, bs)
    ensures CanAllocateBlocks(bs, n) <==> AllocateBlocks(bs, n).0.Ok?
    ensures 0 < n ==> (CanAllocateBlocks(bs, n) <==> exists a :: FreeRun(base, end, Live(bs), a, n))
  {
    if 0 < n { AllocateLowest(base, end, bs, n); }
  }

  /** Deallocating what allocate returned restores the exact block list, unless the allocation sits
      at address zero: deallocate ignores that address. */
  lemma AllocateDeallocate(base: nat, end: nat, bs: seq<Block>, n: nat)
    requires Valid(base, end, bs) && AllocateBlocks(bs, n).0.Ok?
    ensures var (a, after) := AllocateBlocks(bs, n);
            DeallocateBlocks(after, a.value, n) == (Ok(()), bs) <==> (n == 0 || a.value != NULL)
  {
    if 0 < n {
      AllocateRelease(base, end, bs, n);
      AllocateRefines(base, end, bs, n);
      var a := AllocateBlocks(bs, n).0.value;
      assert !Apart(Extent(a, n), a, n);
    }
  }

  /** An allocation at address zero stays: deallocating it reports success and changes nothing. */
  lemma AllocationAtZeroStays()
    ensures var bs := [Block(0, 8, true)];
            var (a, after) := AllocateBlocks(bs, 4);
            && Valid(0, 8, bs) && a == Ok(0) && Live(after) == {Extent(0, 4)}
            && DeallocateBlocks(after, 0, 4) == (Ok(()), after) && after != bs
  {
    WholeArena(0, 8);
    var after := AllocateBlocks([Block(0, 8, true)], 4).1;
    assert after == [Block(0, 4, false), Block(4, 4, true)];
    assert after[1..] == [Block(4, 4, true)];
  }

  /** Live allocations lie inside the arena and do not overlap. */
  lemma {:induction false} LiveDisjoint(start: nat, end: nat, free: bool, bs: seq<Block>, e: Extent, f: Extent)
    requires Chain(start, end, free, bs) && e in Live(bs) && f in Live(bs)
    ensures start <= e.start && e.start + e.size <= end
    ensures e == f || Apart(e, f.start, f.size)
    decreases bs
  {
    var mid := start + bs[0].size;
    Bounds(mid, end, bs[0].free, bs[1..]);
    if e in Live(bs[1..]) && f in Live(bs[1..]) {
      LiveDisjoint(mid, end, bs[0].free, bs[1..], e, f);
    }
  }

  class MemoryManager {
    var blocks: seq<Block>
    ghost const base: nat
    ghost const end: nat

    ghost predicate Invariant()
      reads this
    {
      Valid(base, end, blocks)
    }

    constructor (segment: nat, size: nat)
      ensures Invariant() && base == segment && end == segment + size && Live(blocks) == {}
    {
      blocks := [Block(segment, size, true)];
      base, end := segment, segment + size;
      new;
      WholeArena(segment, size);
    }

    method Allocate(size: nat) returns (r: Result<nat>)
      requires Invariant()
      modifies this`blocks
      ensures Invariant() && (r, blocks) == AllocateBlocks(old(blocks), size)
      ensures AbstractStep(base, end, old(Live(blocks)), AllocateCall(size), Address(r), Live(blocks))
      ensures 0 < size && r.Ok? ==>
                && FreeRun(base, end, old(Live(blocks)), r.value, size)
                && (forall a :: FreeRun(base, end, old(Live(blocks)), a, size) ==> r.value <= a)
                && Live(blocks) == old(Live(blocks)) + {Extent(r.value, size)}
      ensures 0 < size && r.Err? ==>
                Live(blocks) == old(Live(blocks)) && forall a :: !FreeRun(base, end, old(Live(blocks)), a, size)
    {
      ApplyRefines(base, end, blocks, AllocateCall(size));
      if size == 0 { return Ok(NULL); }
      var it := 0;
      while it < |blocks|
        invariant it <= FirstFit(blocks, size) && blocks == old(blocks)
      {
        if blocks[it].free && blocks[it].size >= size {
          if blocks[it].size > size {
            var b := Block(blocks[it].start, size, false);
            blocks := blocks[..it] + [b] + blocks[it..];
            it := it + 1;
            blocks := blocks[it := blocks[it].(start := blocks[it].start + size, size := blocks[it].size - size)];
            it := it - 1;
          } else {
            blocks := blocks[it := blocks[it].(free := false)];
          }
          assert blocks == Carve(old(blocks), it, size);
          return Ok(blocks[it].start);
        }
        it := it + 1;
      }
      return Err(BadAlloc);
    }

    method CanAllocate(size: nat) returns (possible: bool)
      requires Invariant()
      ensures possible <==> CanAllocateBlocks(blocks, size)
      ensures possible <==> size == 0 || exists a :: FreeRun(base, end, Live(blocks), a, size)
    {
      CanAllocateExact(base, end, blocks, size);
      if size == 0 { return true; }
      for it := 0 to |blocks|
        invariant it <= FirstFit(blocks, size)
      {
        if blocks[it].free && blocks[it].size >= size { return true; }
      }
      return false;
    }

    method MergeWithNext(it: nat)
      requires it < |blocks|
      modifies this`blocks
      ensures blocks == MergeNext(old(blocks), it)
    {
      var next := it + 1;
      if next != |blocks| && blocks[next].free {
        blocks := blocks[it := blocks[it].(size := blocks[it].size + blocks[next].size)];
        blocks := blocks[..next] + blocks[next + 1..];
      }
    }

    method MergeWithPrevious(it: nat) returns (i: nat)
      requires it < |blocks|
      modifies this`blocks
      ensures blocks == MergePrevious(old(blocks), it)
      ensures i == if 0 < it && old(blocks)[it - 1].free then it - 1 else it
    {
      i := it;
      if it != 0 {
        var prev := it - 1;
        if blocks[prev].free {
          blocks := blocks[it := Block(blocks[prev].start, blocks[it].size + blocks[prev].size, blocks[it].free)];
          blocks := blocks[..prev] + blocks[prev + 1..];
          i := prev;
        }
      }
    }

    /** Frees block `it` in place. */
    method ReleaseBlock(it: nat)
      requires it < |blocks|
      modifies this`blocks
      ensures blocks == Release(old(blocks), it)
    {
      ReleaseStages(blocks, it);
      MergeWithNext(it);
      var i := MergeWithPrevious(it);
      blocks := blocks[i := blocks[i].(free := true)];
    }

    method Deallocate(address: nat, size: nat) returns (r: Result<()>)
      requires Invariant()
      modifies this`blocks
      ensures Invariant() && (r, blocks) == DeallocateBlocks(old(blocks), address, size)
      ensures AbstractStep(base, end, old(Live(blocks)), DeallocateCall(address, size), Released(r), Live(blocks))
      ensures if address != NULL && Extent(address, size) in old(Live(blocks)) then
                r.Ok? && Live(blocks) == old(Live(blocks)) - {Extent(address, size)}
              else Live(blocks) == old(Live(blocks))
    {
      ApplyRefines(base, end, blocks, DeallocateCall(address, size));
      if address == NULL { return Ok(()); }
      var it := 0;
      while it < |blocks|
        invariant it <= Find(blocks, address) && blocks == old(blocks)
      {
        if blocks[it].start == address {
          if blocks[it].size != size { return Err(NotReleased); }
          ReleaseBlock(it);
          return Ok(());
        }
        it := it + 1;
      }
      return Err(BadAlloc);
    }
  }
}
