/** The ring allgatherv object of one rank: its methods update buffers, step counter and
    notifications in place and do what the machine's local step does. */
module AllgathervRing {
  import opened Buffers
  import opened PrefixSums
  import opened RingIndex
  import opened Transport
  import opened RingAllgatherv

  // ----- counts and offsets -----

  const INT_RANGE := 0x1_0000_0000

  /** Conversion to a 32-bit signed integer. */
  function ToInt(x: int): (i: int)
    ensures -INT_RANGE / 2 <= i < INT_RANGE / 2
    ensures exists q :: x == i + q * INT_RANGE
  {
    var m, q := x % INT_RANGE, x / INT_RANGE;
    assert x == m + q * INT_RANGE && x == (m - INT_RANGE) + (q + 1) * INT_RANGE;
    if m < INT_RANGE / 2 then m else m - INT_RANGE
  }

  /** The counts are summed in an int, and the sum is converted back to an unsigned word. */
  function AccumulateInt(counts: seq<nat>, n: nat): (total: int)
    requires n <= |counts|
  {
    if n == 0 then 0 else ToInt((AccumulateInt(counts, n - 1) + counts[n - 1]) % WORD)
  }

  function OutputCount(counts: seq<nat>): nat {
    AccumulateInt(counts, |counts|) % WORD
  }

  lemma {:induction false} AccumulateIsSum(counts: seq<nat>, n: nat)
    requires n <= |counts|
    ensures -INT_RANGE / 2 <= AccumulateInt(counts, n) < INT_RANGE / 2
    ensures exists q :: Sum(counts, n) == AccumulateInt(counts, n) + q * INT_RANGE
  {
    if 0 < n {
      AccumulateIsSum(counts, n - 1);
      var q :| Sum(counts, n - 1) == AccumulateInt(counts, n - 1) + q * INT_RANGE;
      var x := AccumulateInt(counts, n - 1) + counts[n - 1];
      var y := x % WORD;
      var w := x / WORD;
      assert x == y + (w * INT_RANGE) * INT_RANGE;
      var q' :| y == ToInt(y) + q' * INT_RANGE;
      assert Sum(counts, n) == ToInt(y) + (q + q' + w * INT_RANGE) * INT_RANGE;
    } else {
      assert Sum(counts, 0) == AccumulateInt(counts, 0) + 0 * INT_RANGE;
    }
  }

  /** The element count is right exactly for totals below 2^31, and again for the topmost 2^31 words. */
  lemma OutputCountExact(counts: seq<nat>)
    ensures var total := Sum(counts, |counts|);
            OutputCount(counts) == total
            <==> total < INT_RANGE / 2 || WORD - INT_RANGE / 2 <= total < WORD
  {
    var total, sum := Sum(counts, |counts|), AccumulateInt(counts, |counts|);
    AccumulateIsSum(counts, |counts|);
    var q :| total == sum + q * INT_RANGE;
    if total < INT_RANGE / 2 {
      assert q == 0;
    } else if WORD - INT_RANGE / 2 <= total < WORD {
      assert q == INT_RANGE;
    }
  }

  // ----- copying a piece -----

  lemma PieceIn<T>(counts: seq<nat>, before: seq<T>, after: seq<T>, piece: seq<T>, c: nat)
    requires c < |counts| && |before| == Sum(counts, |counts|) && |piece| == counts[c]
    requires Sum(counts, c + 1) <= |before|
    requires after == before[..Sum(counts, c)] + piece + before[Sum(counts, c + 1)..]
    ensures |after| == |before| && after[Sum(counts, c)..Sum(counts, c + 1)] == piece
  {}

  lemma PieceBeside<T>(counts: seq<nat>, before: seq<T>, after: seq<T>, piece: seq<T>, c: nat, d: nat)
    requires c < |counts| && d < |counts| && c != d && |before| == Sum(counts, |counts|) && |piece| == counts[c]
    requires Sum(counts, c + 1) <= |before|
    requires after == before[..Sum(counts, c)] + piece + before[Sum(counts, c + 1)..]
    ensures |after| == |before| && Sum(counts, d + 1) <= |before|
    ensures after[Sum(counts, d)..Sum(counts, d + 1)] == before[Sum(counts, d)..Sum(counts, d + 1)]
  {
    SumMonotonic(counts, d + 1, |counts|);
    if d < c { SumMonotonic(counts, d + 1, c); } else { SumMonotonic(counts, c + 1, d); }
    Beside(before, after, piece, Sum(counts, c), Sum(counts, c + 1), Sum(counts, d), Sum(counts, d + 1));
  }

  lemma Beside<T>(before: seq<T>, after: seq<T>, piece: seq<T>, i: nat, j: nat, lo: nat, hi: nat)
    requires i + |piece| == j <= |before| && lo <= hi <= |before| && (hi <= i || j <= lo)
    requires after == before[..i] + piece + before[j..]
    ensures |after| == |before| && after[lo..hi] == before[lo..hi]
  {
    forall k | lo <= k < hi ensures after[k] == before[k] {}
  }

  // ----- the object -----

  class Allgatherv<T(0)> {
    const counts: seq<nat>
    const offsets: seq<nat>
    const numberElements: nat
    const rank: nat
    const numberRanks: nat
    const leftNeighbor: nat
    const rightNeighbor: nat
    /** Source buffer i > 0 is the memory of target buffer i - 1. */
    const sourceBuffers: seq<array<T>>
    const targetBuffers: seq<array<T>>
    const dataFor1RankCase: array<T>
    var currentStep: nat
    var notes: set<Slot>
    var posted: seq<Msg>
    ghost var memory: map<Cell, seq<T>>
    ghost const buffers: set<array<T>>

    ghost predicate Valid() {
      && rank < numberRanks < WORD / 2 && |counts| == numberRanks
      && |offsets| == numberRanks && (forall i :: 0 <= i < numberRanks ==> offsets[i] == Sum(counts, i))
      && leftNeighbor == Prev(numberRanks, rank) && rightNeighbor == Next(numberRanks, rank)
      && numberElements == OutputCount(counts)
      && (numberRanks == 1 ==> dataFor1RankCase.Length == numberElements)
      && (1 < numberRanks ==>
            && |sourceBuffers| == |targetBuffers| == numberRanks - 1
            && sourceBuffers[0].Length == counts[rank] && sourceBuffers[0] in buffers
            && (forall i :: 0 <= i < numberRanks - 1 ==>
                              && targetBuffers[i].Length == counts[TargetOrigin(numberRanks, rank, i)]
                              && targetBuffers[i] in buffers && targetBuffers[i] != sourceBuffers[0])
            && (forall i, j :: 0 <= i < j < numberRanks - 1 ==> targetBuffers[i] != targetBuffers[j])
            && (forall i :: 0 <= i < numberRanks - 2 ==> sourceBuffers[i + 1] == targetBuffers[i]))
    }

    ghost predicate Coherent()
      reads this`memory, buffers
      requires Valid() && 1 < numberRanks
    {
      && Own in memory && memory[Own] == sourceBuffers[0][..]
      && forall i :: 0 <= i < numberRanks - 1 ==> Tgt(i) in memory && memory[Tgt(i)] == targetBuffers[i][..]
    }

    ghost predicate Models(cfg: Config<T>)
      reads this`memory, buffers
    {
      cfg.Valid() && Valid() && cfg.p == numberRanks && cfg.counts == counts && Coherent()
    }

    ghost function View(): Proc<T>
      reads this`memory, this`notes
    {
      Process(memory, notes)
    }

    constructor (counts: seq<nat>, rank: nat)
      requires rank < |counts| < WORD / 2
      ensures Valid() && this.counts == counts && this.rank == rank
      ensures notes == {} && posted == [] && currentStep == 0 && (1 < numberRanks ==> Coherent())
    {
      var p := |counts|;
      this.counts, this.rank, this.numberRanks := counts, rank, p;
      this.numberElements := OutputCount(counts);
      this.leftNeighbor := DecrementIndexOnRing(rank, p);
      this.rightNeighbor := IncrementIndexOnRing(rank, p);
      var starts := Offsets(counts);
      this.offsets := starts;
      var targets: seq<array<T>> := [];
      ghost var mem: map<Cell, seq<T>> := map[];
      var own := new T[counts[rank]];
      ghost var all: set<array<T>> := {own};
      if p > 1 {
        mem := map[Own := own[..]];
        var receiveIndex := DecrementIndexOnRing(rank, p);
        for i := 0 to p - 1
          invariant |targets| == i && receiveIndex == Back(p, rank, i + 1)
          invariant Own in mem && mem[Own] == own[..]
          invariant forall j :: 0 <= j < i ==>
                      && fresh(targets[j]) && targets[j] != own && targets[j] in all
                      && targets[j].Length == counts[TargetOrigin(p, rank, j)]
                      && Tgt(j) in mem && mem[Tgt(j)] == targets[j][..]
          invariant forall j, k :: 0 <= j < k < i ==> targets[j] != targets[k]
          invariant own in all && forall a :: a in all ==> fresh(a)
        {
          var target := new T[counts[receiveIndex]];
          targets := targets + [target];
          mem := mem[Tgt(i) := target[..]];
          all := all + {target};
          receiveIndex := DecrementIndexOnRing(receiveIndex, p);
        }
        this.dataFor1RankCase := new T[0];
        this.sourceBuffers := [own] + targets[..p - 2];
      } else {
        this.dataFor1RankCase := new T[OutputCount(counts)];
        this.sourceBuffers := [];
      }
      this.targetBuffers, this.buffers, this.memory := targets, all, mem;
      this.currentStep, this.notes, this.posted := 0, {}, [];
    }

    method CheckForNotification(slot: Slot) returns (raised: bool)
      modifies this`notes
      ensures raised <==> slot in old(notes)
      ensures notes == old(notes) - {slot} && (!raised ==> notes == old(notes))
    {
      raised := slot in notes;
      notes := notes - {slot};
    }

    /** source_buffers[i]->initTransfer() */
    method InitTransfer(i: nat, ghost cfg: Config<T>)
      requires Models(cfg) && i < numberRanks - 1
      modifies this`posted
      ensures posted == old(posted) + [Send(cfg, rank, i)]
    {
      var transfer := if sourceBuffers[i].Length == 0 then Notify(rightNeighbor, Dat(i))
                      else Write(rank, SourceCell(i), rightNeighbor, Tgt(i), Dat(i));
      if 0 < i { SizesMatch(numberRanks, rank, i - 1); }
      posted := posted + [transfer];
    }

    method StartImpl(ghost cfg: Config<T>)
      requires Valid() && (1 < numberRanks ==> Models(cfg))
      modifies this`currentStep, this`posted
      ensures numberRanks == 1 ==> unchanged(this)
      ensures 1 < numberRanks ==>
                var o := Start(cfg, rank, old(View()));
                Control(true, currentStep, false) == o.ctl && View() == o.proc && posted == old(posted) + o.posts
    {
      if numberRanks > 1 {
        currentStep := 0;
        InitTransfer(currentStep, cfg);
      }
    }

    method TriggerProgressImpl(ghost cfg: Config<T>) returns (done: bool)
      requires Valid() && (1 < numberRanks ==> Models(cfg) && currentStep <= numberRanks - 1)
      modifies this`currentStep, this`notes, this`posted
      ensures numberRanks == 1 ==> done && unchanged(this)
      ensures 1 < numberRanks ==>
                var o := Trigger(cfg, rank, old(Control(true, currentStep, false)), old(View()));
                Control(true, currentStep, done) == o.ctl && View() == o.proc && posted == old(posted) + o.posts
    {
      if numberRanks == 1 { return true; }
      if currentStep == numberRanks - 1 {
        done := CheckForNotification(Ack(currentStep - 1));
        return;
      }
      var madeProgress := CheckForNotification(Dat(currentStep));
      if !madeProgress { return false; }
      currentStep := currentStep + 1;
      if currentStep == numberRanks - 1 {
        posted := posted + [Notify(leftNeighbor, Ack(currentStep - 1))];
      } else {
        InitTransfer(currentStep, cfg);
      }
      return false;
    }

    method CopyInImpl(inputs: array<T>, ghost cfg: Config<T>)
      requires Valid() && (1 < numberRanks ==> Models(cfg))
      requires inputs.Length == counts[rank] && inputs !in buffers && inputs != dataFor1RankCase
      requires numberRanks == 1 ==> numberElements <= inputs.Length
      modifies this`memory, buffers, dataFor1RankCase
      ensures numberRanks == 1 ==> dataFor1RankCase[..] == inputs[..numberElements]
      ensures 1 < numberRanks ==> Coherent() && memory == old(memory)[Own := inputs[..]]
    {
      if numberRanks == 1 {
        CopyElements(inputs, 0, numberElements, dataFor1RankCase, 0);
      } else {
        CopyElements(inputs, 0, sourceBuffers[0].Length, sourceBuffers[0], 0);
        assert sourceBuffers[0][..] == inputs[..];
        memory := memory[Own := sourceBuffers[0][..]];
      }
    }

    /** The piece of rank `c` is in place. */
    ghost predicate Placed(outputs: array<T>, cfg: Config<T>, c: nat)
      reads this`memory, outputs
      requires Valid() && cfg.Valid() && cfg.p == numberRanks && cfg.counts == counts && c < cfg.p
      requires outputs.Length == Sum(counts, numberRanks)
    {
      SumMonotonic(counts, c + 1, numberRanks);
      && Holder(cfg.p, rank, c) in memory
      && outputs[Sum(counts, c)..Sum(counts, c + 1)] == memory[Holder(cfg.p, rank, c)]
    }

    /** Copies the piece of rank `c` to its offset; the other pieces stay. */
    method CopyPiece(outputs: array<T>, c: nat, from: array<T>, ghost cfg: Config<T>)
      requires Models(cfg) && c < numberRanks && outputs.Length == Sum(counts, numberRanks)
      requires outputs !in buffers && from in buffers && from.Length == counts[c]
      requires Holder(cfg.p, rank, c) in memory && from[..] == memory[Holder(cfg.p, rank, c)]
      modifies outputs
      ensures Models(cfg) && Placed(outputs, cfg, c)
      ensures forall d :: 0 <= d < numberRanks && old(Placed(outputs, cfg, d)) ==> Placed(outputs, cfg, d)
    {
      SumMonotonic(counts, c + 1, numberRanks);
      ghost var before, piece := outputs[..], from[..];
      CopyElements(from, 0, counts[c], outputs, offsets[c]);
      assert outputs[..] == before[..Sum(counts, c)] + piece + before[Sum(counts, c + 1)..];
      PieceIn(counts, before, outputs[..], piece, c);
      forall d | 0 <= d < numberRanks && d != c && old(Placed(outputs, cfg, d)) ensures Placed(outputs, cfg, d) {
        PieceBeside(counts, before, outputs[..], piece, c, d);
        assert outputs[Sum(counts, d)..Sum(counts, d + 1)] == outputs[..][Sum(counts, d)..Sum(counts, d + 1)];
      }
    }

    lemma {:induction false} AllPlaced(outputs: array<T>, cfg: Config<T>, n: nat)
      requires Models(cfg) && n <= numberRanks && outputs.Length == Sum(counts, numberRanks)
      requires forall c :: 0 <= c < numberRanks ==> Placed(outputs, cfg, c)
      ensures Allocated(cfg, rank, View()) && Sum(counts, n) <= outputs.Length
      ensures outputs[..Sum(counts, n)] == CopyOut(cfg, rank, View(), n)
    {
      SumMonotonic(counts, n, numberRanks);
      if n == 0 {
      } else {
        AllPlaced(outputs, cfg, n - 1);
        assert Placed(outputs, cfg, n - 1);
        assert outputs[..Sum(counts, n)] == outputs[..Sum(counts, n - 1)] + outputs[Sum(counts, n - 1)..Sum(counts, n)];
      }
    }

    method CopyOutImpl(outputs: array<T>, ghost cfg: Config<T>)
      requires Valid() && (1 < numberRanks ==> Models(cfg))
      requires outputs.Length == Sum(counts, numberRanks) && outputs !in buffers && outputs != dataFor1RankCase
      requires numberRanks == 1 ==> numberElements <= outputs.Length
      modifies outputs
      ensures numberRanks == 1 ==> outputs[..numberElements] == dataFor1RankCase[..]
      ensures 1 < numberRanks ==>
                Models(cfg) && Allocated(cfg, rank, View()) && outputs[..] == CopyOut(cfg, rank, View(), cfg.p)
    {
      if numberRanks == 1 {
        CopyElements(dataFor1RankCase, 0, numberElements, outputs, 0);
      } else {
        CopyPieces(outputs, cfg);
      }
    }

    method CopyPieces(outputs: array<T>, ghost cfg: Config<T>)
      requires Models(cfg) && outputs.Length == Sum(counts, numberRanks) && outputs !in buffers
      modifies outputs
      ensures Models(cfg) && Allocated(cfg, rank, View()) && outputs[..] == CopyOut(cfg, rank, View(), cfg.p)
    {
      CopyPiece(outputs, rank, sourceBuffers[0], cfg);
      CopyReceived(outputs, cfg);
      AllPlaced(outputs, cfg, numberRanks);
      assert outputs[..] == outputs[..Sum(counts, numberRanks)];
    }

    /** The loop over the target buffers, from the left neighbour of this rank around the ring. */
    method CopyReceived(outputs: array<T>, ghost cfg: Config<T>)
      requires Models(cfg) && outputs.Length == Sum(counts, numberRanks) && outputs !in buffers
      requires PlacedUpTo(outputs, cfg, 0)
      modifies outputs
      ensures Models(cfg) && forall c :: 0 <= c < numberRanks ==> Placed(outputs, cfg, c)
    {
      var receiveIndex := DecrementIndexOnRing(rank, numberRanks);
      for i := 0 to numberRanks - 1
        invariant Models(cfg) && receiveIndex == Back(numberRanks, rank, i + 1)
        invariant PlacedUpTo(outputs, cfg, i)
      {
        receiveIndex := CopyNextPiece(outputs, receiveIndex, i, cfg);
      }
    }

    ghost predicate PlacedUpTo(outputs: array<T>, cfg: Config<T>, i: nat)
      reads this`memory, outputs
      requires Valid() && cfg.Valid() && cfg.p == numberRanks && cfg.counts == counts
      requires outputs.Length == Sum(counts, numberRanks)
    {
      forall c :: 0 <= c < numberRanks && Dist(numberRanks, rank, c) <= i ==> Placed(outputs, cfg, c)
    }

    /** The body of the copyOut loop. */
    method CopyNextPiece(outputs: array<T>, receiveIndex: nat, i: nat, ghost cfg: Config<T>) returns (next: nat)
      requires Models(cfg) && outputs.Length == Sum(counts, numberRanks) && outputs !in buffers
      requires i < numberRanks - 1 && receiveIndex == Back(numberRanks, rank, i + 1) && PlacedUpTo(outputs, cfg, i)
      modifies outputs
      ensures Models(cfg) && next == Back(numberRanks, rank, i + 2) && PlacedUpTo(outputs, cfg, i + 1)
    {
      CopyPiece(outputs, receiveIndex, targetBuffers[i], cfg);
      next := DecrementIndexOnRing(receiveIndex, numberRanks);
    }
  }
}
