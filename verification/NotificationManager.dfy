/** The notification-id allocator of a segment: the memory allocator's twin, on ids from zero,
    which rejects empty requests and releases by start id alone. */
module NotificationManager {
  import opened FreeList

  datatype Call = AllocateCall(n: nat) | DeallocateCall(id: nat)

  function AllocateBlocks(bs: seq<Block>, n: nat): (Result<nat>, seq<Block>) {
    if n == 0 then (Err(RequestedNothing), bs) else FreeList.Allocate(bs, n)
  }

  function DeallocateBlocks(bs: seq<Block>, a: nat): (Result<nat>, seq<Block>) {
    var i := Find(bs, a);
    if i == |bs| then (Err(BadAlloc), bs) else (Ok(a), Release(bs, i))
  }

  /** The reply is the first id, or the error; a successful release replies with the id given. */
  function Apply(bs: seq<Block>, c: Call): (Result<nat>, seq<Block>) {
    match c
    case AllocateCall(n) => AllocateBlocks(bs, n)
    case DeallocateCall(a) => DeallocateBlocks(bs, a)
  }

  function Run(bs: seq<Block>, calls: seq<Call>): (seq<Result<nat>>, seq<Block>)
    decreases calls
  {
    if calls == [] then ([], bs)
    else
      var (reply, next) := Apply(bs, calls[0]);
      var (replies, after) := Run(next, calls[1..]);
      ([reply] + replies, after)
  }

  ghost predicate AbstractStep(end: nat, live: set<Extent>, c: Call, reply: Result<nat>, live': set<Extent>) {
    match c
    case AllocateCall(n) =>
      if n == 0 then reply == Err(RequestedNothing) && live' == live else Allocates(0, end, live, n, reply, live')
    case DeallocateCall(a) =>
      if exists m :: Starts(0, end, live, a, m) then reply == Ok(a) && live' == set e | e in live && e.start != a
      else reply == Err(BadAlloc) && live' == live
  }

  ghost predicate AbstractRun(end: nat, live: set<Extent>, calls: seq<Call>, replies: seq<Result<nat>>,
                              live': set<Extent>)
    decreases calls
  {
    if calls == [] then replies == [] && live' == live
    else
      && replies != []
      && exists mid ::
           AbstractStep(end, live, calls[0], replies[0], mid) && AbstractRun(end, mid, calls[1..], replies[1..], live')
  }

  lemma DeallocateRefines(end: nat, bs: seq<Block>, a: nat)
    requires Valid(0, end, bs)
    ensures Valid(0, end, DeallocateBlocks(bs, a).1)
    ensures AbstractStep(end, Live(bs), DeallocateCall(a), DeallocateBlocks(bs, a).0, Live(DeallocateBlocks(bs, a).1))
  {
    var i := Find(bs, a);
    forall m ensures Starts(0, end, Live(bs), a, m) <==> i < |bs| && bs[i].size == m {
      FindRefines(0, end, bs, a, m);
    }
    if i < |bs| {
      assert Starts(0, end, Live(bs), a, bs[i].size);
      ReleaseRefines(0, end, bs, i);
      forall e | e in Live(bs) && e.start == a ensures e == Extent(a, bs[i].size) {
        FindRefines(0, end, bs, a, e.size);
      }
    }
  }

  lemma ApplyRefines(end: nat, bs: seq<Block>, c: Call)
    requires Valid(0, end, bs)
    ensures Valid(0, end, Apply(bs, c).1) && AbstractStep(end, Live(bs), c, Apply(bs, c).0, Live(Apply(bs, c).1))
  {
    match c {
      case AllocateCall(n) => if 0 < n { AllocateRefines(0, end, bs, n); }
      case DeallocateCall(a) => DeallocateRefines(end, bs, a);
    }
  }

  /** After any sequence of calls the block list is valid and every reply is the one the allocator
      on sets of extents gives. */
  lemma {:induction false} RunRefines(end: nat, bs: seq<Block>, calls: seq<Call>)
    requires Valid(0, end, bs)
    ensures Valid(0, end, Run(bs, calls).1)
    ensures AbstractRun(end, Live(bs), calls, Run(bs, calls).0, Live(Run(bs, calls).1))
    decreases calls
  {
    if calls == [] {
    } else {
      var (reply, next) := Apply(bs, calls[0]);
      ApplyRefines(end, bs, calls[0]);
      RunRefines(end, next, calls[1..]);
      var (replies, after) := Run(next, calls[1..]);
      assert ([reply] + replies)[1..] == replies;
    }
  }

  /** Releasing the ids that allocate returned restores the exact block list; id zero is no exception. */
  lemma AllocateDeallocate(end: nat, bs: seq<Block>, n: nat)
    requires Valid(0, end, bs) && AllocateBlocks(bs, n).0.Ok?
    ensures var (a, after) := AllocateBlocks(bs, n);
            DeallocateBlocks(after, a.value) == (Ok(a.value), bs)
  {
    AllocateRelease(0, end, bs, n);
  }

  class NotificationManager {
    var blocks: seq<Block>
    ghost const end: nat

    ghost predicate Invariant()
      reads this
    {
      Valid(0, end, blocks)
    }

    constructor (size: nat)
      ensures Invariant() && end == size && Live(blocks) == {}
    {
      blocks := [Block(0, size, true)];
      end := size;
      new;
      WholeArena(0, size);
    }

    method Allocate(size: nat) returns (r: Result<nat>)
      requires Invariant()
      modifies this`blocks
      ensures Invariant() && (r, blocks) == AllocateBlocks(old(blocks), size)
      ensures AbstractStep(end, old(Live(blocks)), AllocateCall(size), r, Live(blocks))
      ensures 0 < size && r.Ok? ==>
                && FreeRun(0, end, old(Live(blocks)), r.value, size)
                && (forall a :: FreeRun(0, end, old(Live(blocks)), a, size) ==> r.value <= a)
                && Live(blocks) == old(Live(blocks)) + {Extent(r.value, size)}
    {
      ApplyRefines(end, blocks, AllocateCall(size));
      if size == 0 { return Err(RequestedNothing); }
      var it := 0;
      while it < |blocks|
        invariant it <= FirstFit(blocks, size) && blocks == old(blocks)
      {
        if blocks[it].free && blocks[it].size >= size {
          if blocks[it].size > size {
            var b := Block(blocks[it].start, size, false);
            blocks := blocks[..it] + [b] + blocks[it..];
            it := it + 1;
            blocks := blocks[it := blocks[it].(start := blocks[it].start + size, size := blocks[it].size - size)];
            it := it - 1;
          } else {
            blocks := blocks[it := blocks[it].(free := false)];
          }
          assert blocks == Carve(old(blocks), it, size);
          return Ok(blocks[it].start);
        }
        it := it + 1;
      }
      return Err(BadAlloc);
    }

    method MergeWithNext(it: nat)
      requires it < |blocks|
      modifies this`blocks
      ensures blocks == MergeNext(old(blocks), it)
    {
      var next := it + 1;
      if next != |blocks| && blocks[next].free {
        blocks := blocks[it := blocks[it].(size := blocks[it].size + blocks[next].size)];
        blocks := blocks[..next] + blocks[next + 1..];
      }
    }

    method MergeWithPrevious(it: nat) returns (i: nat)
      requires it < |blocks|
      modifies this`blocks
      ensures blocks == MergePrevious(old(blocks), it)
      ensures i == if 0 < it && old(blocks)[it - 1].free then it - 1 else it
    {
      i := it;
      if it != 0 {
        var prev := it - 1;
        if blocks[prev].free {
          blocks := blocks[it := Block(blocks[prev].start, blocks[it].size + blocks[prev].size, blocks[it].free)];
          blocks := blocks[..prev] + blocks[prev + 1..];
          i := prev;
        }
      }
    }

    /** Frees block `it` in place. */
    method ReleaseBlock(it: nat)
      requires it < |blocks|
      modifies this`blocks
      ensures blocks == Release(old(blocks), it)
    {
      ReleaseStages(blocks, it);
      MergeWithNext(it);
      var i := MergeWithPrevious(it);
      blocks := blocks[i := blocks[i].(free := true)];
    }

    method Deallocate(id: nat) returns (r: Result<nat>)
      requires Invariant()
      modifies this`blocks
      ensures Invariant() && (r, blocks) == DeallocateBlocks(old(blocks), id)
      ensures AbstractStep(end, old(Live(blocks)), DeallocateCall(id), r, Live(blocks))
      ensures if r.Ok? then r.value == id && Live(blocks) == set e | e in old(Live(blocks)) && e.start != id
              else Live(blocks) == old(Live(blocks)) && forall n :: Extent(id, n) !in old(Live(blocks))
    {
      ApplyRefines(end, blocks, DeallocateCall(id));
      var it := 0;
      while it < |blocks|
        invariant it <= Find(blocks, id) && blocks == old(blocks)
      {
        if blocks[it].start == id {
          ReleaseBlock(it);
          return Ok(id);
        }
        it := it + 1;
      }
      assert forall n :: Extent(id, n) in Live(blocks) ==> Starts(0, end, Live(blocks), id, n);
      return Err(BadAlloc);
    }
  }
}
