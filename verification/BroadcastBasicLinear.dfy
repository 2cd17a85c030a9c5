/** The linear broadcast object of one rank. */
module BroadcastBasicLinear {
  import opened Buffers
  import opened RingIndex
  import opened Transport
  import opened LinearBroadcast

  /** Remainders of sums up to twice the number of ranks. */
  method Modulo(x: nat, p: nat) returns (m: nat)
    requires 0 < p && x <= 2 * p
    ensures m == if x < p then x else if x < 2 * p then x - p else 0
  {
    m := x % p;
  }

  class Broadcast<T(0)> {
    const numberElements: nat
    const numberRanks: nat
    const rank: nat
    const first: nat
    const rankAfterFirst: nat
    const secondLast: nat
    const last: nat
    const leftNeighbour: nat
    const rightNeighbour: nat
    const lastIteration: nat
    /** Null where the rank has no such buffer; between the ends both are the same memory. */
    const sourceBuffer: array?<T>
    const targetBuffer: array?<T>
    var iteration: nat
    var notes: set<Slot>
    var posted: seq<Msg>

    ghost predicate Valid() {
      && rank < numberRanks && first < numberRanks && lastIteration == numberRanks
      && (0 < numberElements ==> if rank == first then sourceBuffer != null && sourceBuffer.Length == numberElements
                                 else targetBuffer != null && targetBuffer.Length == numberElements)
      && (0 < numberElements && 1 < numberRanks ==>
            && rankAfterFirst == Dist(numberRanks, rank, first)
            && last == Back(numberRanks, first, 1) && secondLast == Back(numberRanks, first, 2)
            && leftNeighbour == Prev(numberRanks, rank) && rightNeighbour == Next(numberRanks, rank)
            && (rank != first && rank != last ==> sourceBuffer == targetBuffer))
    }

    /** The one memory of this rank. */
    ghost function Memory(): array<T>
      requires Valid() && 0 < numberElements
    {
      if rank == first then sourceBuffer else targetBuffer
    }

    ghost function View(): Proc<T>
      requires Valid() && 0 < numberElements
      reads this`notes, Memory()
    {
      Process(map[Buf := Memory()[..]], notes)
    }

    ghost predicate Models(cfg: Config<T>) {
      cfg.Valid() && Valid() && 0 < numberElements && 1 < numberRanks && cfg.p == numberRanks && cfg.root == first
    }

    constructor (numberElements: nat, numberRanks: nat, rank: nat, root: nat)
      requires rank < numberRanks && root < numberRanks
      ensures Valid() && this.numberElements == numberElements && this.numberRanks == numberRanks
      ensures this.rank == rank && first == root && iteration == 0 && notes == {} && posted == []
    {
      this.numberElements, this.numberRanks, this.rank, this.first := numberElements, numberRanks, rank, root;
      this.lastIteration := numberRanks;
      this.iteration, this.notes, this.posted := 0, {}, [];
      var after, secondLast, last, left, right := 0, 0, 0, 0, 0;
      if 1 < numberRanks {
        after := Modulo(numberRanks + rank - root, numberRanks);
        secondLast := Modulo(numberRanks + root - 2, numberRanks);
        last := Modulo(numberRanks + root - 1, numberRanks);
        left := Modulo(numberRanks + rank - 1, numberRanks);
        right := Modulo(numberRanks + rank + 1, numberRanks);
      }
      this.rankAfterFirst, this.secondLast, this.last := after, secondLast, last;
      this.leftNeighbour, this.rightNeighbour := left, right;
      var source: array?<T>, target: array?<T> := null, null;
      if numberElements != 0 {
        if rank == root {
          source := new T[numberElements];
        } else {
          target := new T[numberElements];
          if rank != last { source := target; }
        }
      }
      this.sourceBuffer, this.targetBuffer := source, target;
    }

    method CheckForNotification(slot: Slot) returns (raised: bool)
      modifies this`notes
      ensures raised <==> slot in old(notes)
      ensures notes == old(notes) - {slot} && (!raised ==> notes == old(notes))
    {
      raised := slot in notes;
      notes := notes - {slot};
    }

    method StartImpl(ghost cfg: Config<T>)
      requires Valid() && (0 < numberElements && 1 < numberRanks ==> Models(cfg))
      modifies this`iteration, this`posted
      ensures numberElements == 0 || numberRanks == 1 ==> unchanged(this)
      ensures 0 < numberElements && 1 < numberRanks ==>
                var o := Start(cfg, rank, old(View()));
                Control(iteration, false) == o.ctl && View() == o.proc && posted == old(posted) + o.posts
    {
      if numberRanks == 1 || numberElements == 0 { return; }
      iteration := 0;
      if rank == first { posted := posted + [Write(rank, Buf, rightNeighbour, Buf, Dat)]; }
      iteration := iteration + 1;
    }

    method TriggerProgressImpl(ghost cfg: Config<T>) returns (done: bool)
      requires Valid() && (0 < numberElements && 1 < numberRanks ==> Models(cfg))
      modifies this`iteration, this`notes, this`posted
      ensures numberElements == 0 || numberRanks == 1 ==> done && unchanged(this)
      ensures 0 < numberElements && 1 < numberRanks ==>
                var o := Trigger(cfg, rank, old(Control(iteration, false)), old(View()));
                Control(iteration, done) == o.ctl && View() == o.proc && posted == old(posted) + o.posts
    {
      if numberRanks == 1 || numberElements == 0 { return true; }
      if iteration == lastIteration {
        done := true;
        if rank == secondLast { done := CheckForNotification(Ack); }
        return;
      }
      if rankAfterFirst == iteration {
        var madeProgress := CheckForNotification(Dat);
        if !madeProgress { return false; }
        if rank != last {
          posted := posted + [Write(rank, Buf, rightNeighbour, Buf, Dat)];
        } else {
          posted := posted + [Notify(leftNeighbour, Ack)];
        }
      }
      iteration := iteration + 1;
      return false;
    }

    method CopyInImpl(inputs: array<T>)
      requires Valid() && inputs.Length == numberElements && inputs != sourceBuffer
      modifies sourceBuffer
      ensures 0 < numberElements && rank == first ==> Memory()[..] == inputs[..]
      ensures rank != first && sourceBuffer != null ==> sourceBuffer[..] == old(sourceBuffer[..])
    {
      if numberElements == 0 { return; }
      if rank == first { CopyBuffer(inputs, sourceBuffer); }
    }

    method CopyOutImpl(outputs: array<T>)
      requires Valid() && outputs.Length == numberElements && outputs != sourceBuffer && outputs != targetBuffer
      modifies outputs
      ensures 0 < numberElements ==> outputs[..] == Memory()[..]
    {
      if numberElements == 0 { return; }
      if rank == first { CopyBuffer(sourceBuffer, outputs); } else { CopyBuffer(targetBuffer, outputs); }
    }
  }
}
