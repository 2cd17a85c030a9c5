/** The ring allreduce object of one rank.  Its methods update buffers, counters and
    notifications in place, and each is proved to do what the machine's local step does. */
module AllreduceRing {
  import opened RingIndex
  import opened Reduction
  import opened Transport
  import opened RingAllreduce
  import opened RingTheorems
  import opened Buffers

  ghost function Cells(p: nat): set<Cell> {
    (set c | 0 <= c < p :: Src(c)) + (set c | 0 <= c < p :: Tgt(c))
  }

  class Ring<T(0)> {
    const numberElements: nat
    const numberRanks: nat
    const rank: nat
    const leftNeighbor: nat
    const rightNeighbor: nat
    const reductionOp: (T, T) -> T
    const pad: nat
    const sourceReduce: seq<array<T>>
    const targetReduce: seq<array<T>>
    const sourceGather: seq<array<T>>
    const targetGather: seq<array<T>>
    const dataFor1RankCase: array<T>
    var currentStep: nat
    var currentIndex: nat
    /** Raised notifications of this rank, and the transfers it has posted. */
    var notes: set<Slot>
    var posted: seq<Msg>
    /** The contents of the chunk buffers. */
    ghost var memory: map<Cell, seq<T>>

    /** The cell each chunk buffer is: so the buffers are all different. */
    ghost const cellOf: map<array<T>, Cell>
    ghost const sourceMemory: set<array<T>>
    ghost const targetMemory: set<array<T>>

    ghost predicate Valid() {
      && 0 < numberRanks < WORD / 2 && rank < numberRanks
      && leftNeighbor == Prev(numberRanks, rank) && rightNeighbor == Next(numberRanks, rank)
      && (0 < numberElements && 1 < numberRanks ==>
            && |sourceReduce| == |targetReduce| == numberRanks
            && (forall i :: 0 <= i < numberRanks ==> sourceReduce[i].Length == targetReduce[i].Length == pad)
            && (forall i :: 0 <= i < numberRanks ==>
                              && sourceReduce[i] in sourceMemory && targetReduce[i] in targetMemory
                              && sourceReduce[i] in cellOf && cellOf[sourceReduce[i]] == Src(i)
                              && targetReduce[i] in cellOf && cellOf[targetReduce[i]] == Tgt(i))
            && sourceMemory !! targetMemory && sourceGather == sourceReduce && targetGather == sourceReduce)
      && (!(0 < numberElements && 1 < numberRanks) ==>
            sourceReduce == targetReduce == sourceGather == targetGather == []
              && dataFor1RankCase.Length == numberElements)
    }

    /** The chunks have the length that the constructor gives them. */
    ghost predicate Padded() {
      0 < numberRanks && pad == CeilDiv(numberElements, numberRanks)
    }

    ghost predicate Coherent()
      reads this`memory, sourceMemory, targetMemory
      requires Valid() && 0 < numberElements && 1 < numberRanks
    {
      && memory.Keys == Cells(numberRanks)
      && forall c :: 0 <= c < numberRanks ==>
                       memory[Src(c)] == sourceReduce[c][..] && memory[Tgt(c)] == targetReduce[c][..]
    }

    ghost function View(): Proc<T>
      reads this`memory, this`notes
    {
      Process(memory, notes)
    }

    ghost predicate Models(cfg: Config<T>)
      reads this`memory, sourceMemory, targetMemory
    {
      && cfg.Valid() && Valid() && cfg.p == numberRanks && cfg.n == numberElements && cfg.pad == pad
      && cfg.op == reductionOp && Coherent()
    }

    /** The chunk buffers of the reduce phase: all different, each with its cell. */
    static method NewChunks(count: nat, length: nat)
      returns (sources: seq<array<T>>, targets: seq<array<T>>, ghost cells: map<array<T>, Cell>,
               ghost sourceSet: set<array<T>>, ghost targetSet: set<array<T>>)
      ensures |sources| == |targets| == count
      ensures forall j :: 0 <= j < count ==> sources[j].Length == targets[j].Length == length
      ensures forall j :: 0 <= j < count ==>
                            && sources[j] in sourceSet && targets[j] in targetSet
                            && sources[j] in cells && cells[sources[j]] == Src(j)
                            && targets[j] in cells && cells[targets[j]] == Tgt(j)
      ensures sourceSet !! targetSet && forall a :: a in sourceSet || a in targetSet ==> fresh(a)
    {
      sources, targets, cells, sourceSet, targetSet := [], [], map[], {}, {};
      for i := 0 to count
        invariant |sources| == |targets| == i
        invariant forall j :: 0 <= j < i ==> sources[j].Length == targets[j].Length == length
        invariant forall j :: 0 <= j < i ==>
                    && sources[j] in sourceSet && targets[j] in targetSet
                    && sources[j] in cells && cells[sources[j]] == Src(j)
                    && targets[j] in cells && cells[targets[j]] == Tgt(j)
        invariant sourceSet !! targetSet
        invariant forall a :: a in cells || a in sourceSet || a in targetSet ==> fresh(a)
      {
        var source, target := new T[length], new T[length];
        sources, targets := sources + [source], targets + [target];
        sourceSet, targetSet := sourceSet + {source}, targetSet + {target};
        cells := cells[source := Src(i)][target := Tgt(i)];
      }
    }

    /** The gather endpoints are copies of the reduce sources: they share their memory. */
    constructor (numberElements: nat, numberRanks: nat, rank: nat, op: (T, T) -> T)
      requires 0 < numberRanks < WORD / 2 && rank < numberRanks
      ensures Valid() && this.numberElements == numberElements && this.numberRanks == numberRanks
      ensures this.rank == rank && this.reductionOp == op
      ensures notes == {} && posted == [] && Padded()
      ensures 0 < numberElements && 1 < numberRanks ==> Coherent()
    {
      this.numberElements, this.numberRanks, this.rank, this.reductionOp := numberElements, numberRanks, rank, op;
      this.leftNeighbor := DecrementIndexOnRing(rank, numberRanks);
      this.rightNeighbor := IncrementIndexOnRing(rank, numberRanks);
      this.pad := CeilDiv(numberElements, numberRanks);
      this.currentStep, this.currentIndex := 0, rank;
      this.notes, this.posted := {}, [];
      var chunks := if 0 < numberElements && 1 < numberRanks then numberRanks else 0;
      var sources, targets, cells, sourceSet, targetSet := NewChunks(chunks, CeilDiv(numberElements, numberRanks));
      this.dataFor1RankCase := new T[if chunks > 0 then 0 else numberElements];
      this.sourceReduce, this.targetReduce, this.cellOf := sources, targets, cells;
      this.sourceMemory, this.targetMemory := sourceSet, targetSet;
      this.sourceGather, this.targetGather := sources, sources;
      this.memory := map cell | cell in Cells(|sources|) ::
        if cell.Src? then sources[cell.c][..] else targets[cell.c][..];
    }

    /** Tests a notification and resets it. */
    method CheckForNotification(slot: Slot) returns (raised: bool)
      modifies this`notes
      ensures raised <==> slot in old(notes)
      ensures notes == old(notes) - {slot} && (!raised ==> notes == old(notes))
    {
      raised := slot in notes;
      notes := notes - {slot};
    }

    method StartImpl()
      requires Valid()
      modifies this`currentStep, this`currentIndex, this`posted
      ensures numberElements == 0 || numberRanks == 1 ==>
                unchanged(this)
      ensures 0 < numberElements && 1 < numberRanks ==>
                && posted == old(posted) + [ReduceWrite(numberRanks, rank, rank)]
                && currentStep == 0 && currentIndex == Prev(numberRanks, rank)
    {
      if numberElements > 0 && numberRanks > 1 {
        currentStep := 0;
        currentIndex := rank;
        InitTransferReduce();
        DecrementIndex();
      }
    }

    method DecrementIndex()
      requires currentIndex < numberRanks < WORD / 2
      modifies this`currentIndex
      ensures currentIndex == Prev(numberRanks, old(currentIndex))
    {
      currentIndex := DecrementIndexOnRing(currentIndex, numberRanks);
    }

    method IndexPlusTwo() returns (i: nat)
      requires 2 <= numberRanks && currentIndex < numberRanks
      ensures i == Next(numberRanks, Next(numberRanks, currentIndex))
    {
      i := (currentIndex + 2) % numberRanks;
    }

    /** source_buffers_reduce[current_index]->initTransfer() */
    method InitTransferReduce()
      requires Valid() && currentIndex < numberRanks
      modifies this`posted
      ensures posted == old(posted) + [ReduceWrite(numberRanks, rank, currentIndex)]
    {
      posted := posted + [Write(rank, Src(currentIndex), rightNeighbor, Tgt(currentIndex), Red(currentIndex))];
    }

    /** source_buffers_gather[current_index]->initTransfer() */
    method InitTransferGather()
      requires Valid() && currentIndex < numberRanks
      modifies this`posted
      ensures posted == old(posted) + [GatherWrite(numberRanks, rank, currentIndex)]
    {
      posted := posted + [Write(rank, Src(currentIndex), rightNeighbor, Src(currentIndex), Gat(currentIndex))];
    }

    method InReduceStage() returns (b: bool)
      requires 1 < numberRanks
      ensures b <==> currentStep < numberRanks - 1
    {
      b := currentStep / (numberRanks - 1) == 0;
    }

    /** apply_reduce_op on the current chunk. */
    method Reduce(ghost cfg: Config<T>)
      requires Models(cfg) && currentIndex < numberRanks
      modifies this`memory, sourceMemory
      ensures Models(cfg)
      ensures var c, mem := currentIndex, old(memory);
              memory == mem[Src(c) := Zip(cfg.op, mem[Src(c)], mem[Tgt(c)])]
    {
      ApplyReduceOp(reductionOp, sourceReduce[currentIndex], targetReduce[currentIndex]);
      memory := memory[Src(currentIndex) := sourceReduce[currentIndex][..]];
    }

    /** Sends the reduced chunk on, in the last reduce step as the first gather transfer, and goes to
        the next chunk. */
    method PassOn()
      requires Valid() && 1 < numberRanks && currentIndex < numberRanks
      modifies this`posted, this`currentStep, this`currentIndex
      ensures posted == old(posted) + [if old(currentStep) != numberRanks - 2
                                       then ReduceWrite(numberRanks, rank, old(currentIndex))
                                       else GatherWrite(numberRanks, rank, old(currentIndex))]
      ensures currentStep == old(currentStep) + 1 && currentIndex == Prev(numberRanks, old(currentIndex))
    {
      if currentStep != numberRanks - 1 - 1 {
        InitTransferReduce();
      } else {
        InitTransferGather();
      }
      currentStep := currentStep + 1;
      DecrementIndex();
    }

    /** One call of triggerProgress in the reduce stage. */
    method TriggerReduce(ghost cfg: Config<T>) returns (madeProgress: bool)
      requires Models(cfg) && currentIndex < numberRanks
      modifies this`currentStep, this`currentIndex, this`notes, this`posted, this`memory, sourceMemory
      ensures Models(cfg)
      ensures madeProgress <==> Red(old(currentIndex)) in old(notes)
      ensures !madeProgress ==> unchanged(this)
      ensures madeProgress ==>
                var c, mem := old(currentIndex), old(memory);
                && memory == mem[Src(c) := Zip(cfg.op, mem[Src(c)], mem[Tgt(c)])]
                && notes == old(notes) - {Red(c)}
                && posted == old(posted)
                   + [if old(currentStep) != numberRanks - 2 then ReduceWrite(numberRanks, rank, c)
                      else GatherWrite(numberRanks, rank, c)]
                && currentStep == old(currentStep) + 1 && currentIndex == Prev(numberRanks, c)
    {
      madeProgress := CheckForNotification(Red(currentIndex));
      if !madeProgress { return; }
      Reduce(cfg);
      PassOn();
    }

    method TriggerGather() returns (madeProgress: bool)
      requires Valid() && 1 < numberRanks && currentIndex < numberRanks
      modifies this`currentStep, this`currentIndex, this`notes, this`posted
      ensures madeProgress <==> Gat(old(currentIndex)) in old(notes)
      ensures !madeProgress ==> unchanged(this)
      ensures madeProgress ==>
                var c := old(currentIndex);
                && notes == old(notes) - {Gat(c)}
                && posted == old(posted)
                   + [if old(currentStep) != 2 * (numberRanks - 1) - 1 then GatherWrite(numberRanks, rank, c)
                      else GatherAck(numberRanks, rank, c)]
                && currentStep == old(currentStep) + 1 && currentIndex == Prev(numberRanks, c)
    {
      madeProgress := CheckForNotification(Gat(currentIndex));
      if !madeProgress { return; }
      if currentStep != 2 * (numberRanks - 1) - 1 {
        InitTransferGather();
      } else {
        posted := posted + [Notify(leftNeighbor, Ack(currentIndex))];
      }
      currentStep := currentStep + 1;
      DecrementIndex();
    }

    ghost predicate Performed(o: Outcome<T>, before: seq<Msg>, done: bool)
      reads this
    {
      && View() == o.proc && posted == before + o.posts && done == o.done
      && Control(if done then Finished else Running, currentStep, currentIndex) == o.ctl
    }

    /** The call does to the object what the machine's local step does to the rank. */
    method TriggerProgressImpl(ghost cfg: Config<T>) returns (done: bool)
      requires Valid()
      requires 0 < numberElements && 1 < numberRanks ==>
                 Models(cfg) && ControlOk(cfg, rank, Control(Running, currentStep, currentIndex))
      modifies this`currentStep, this`currentIndex, this`notes, this`posted, this`memory, sourceMemory
      ensures numberElements == 0 || numberRanks == 1 ==> done && unchanged(this)
      ensures 0 < numberElements && 1 < numberRanks ==>
                && Models(cfg) && Allocated(cfg, old(View()))
                && var o := Trigger(cfg, rank, old(Control(Running, currentStep, currentIndex)), old(View()));
                && View() == o.proc && posted == old(posted) + o.posts && done == o.done
                && Control(if done then Finished else Running, currentStep, currentIndex) == o.ctl
    {
      if numberElements == 0 || numberRanks == 1 { return true; }
      done := false;
      if currentStep == 2 * (numberRanks - 1) {
        var index := IndexPlusTwo();
        done := CheckForNotification(Ack(index));
        return;
      }
      var reduceStage := InReduceStage();
      if reduceStage { ReduceStage(cfg); } else { GatherStage(cfg); }
    }

    /** A reduce step. */
    method ReduceStage(ghost cfg: Config<T>)
      requires Models(cfg) && ControlOk(cfg, rank, Control(Running, currentStep, currentIndex))
      requires currentStep < numberRanks - 1
      modifies this`currentStep, this`currentIndex, this`notes, this`posted, this`memory, sourceMemory
      ensures Models(cfg) && Allocated(cfg, old(View()))
      ensures Performed(Trigger(cfg, rank, old(Control(Running, currentStep, currentIndex)), old(View())), old(posted),
                        false)
    {
      ReduceOutcome(cfg, rank, Control(Running, currentStep, currentIndex), View());
      var madeProgress := TriggerReduce(cfg);
    }

    /** A gather step. */
    method GatherStage(ghost cfg: Config<T>)
      requires Models(cfg) && ControlOk(cfg, rank, Control(Running, currentStep, currentIndex))
      requires numberRanks - 1 <= currentStep < 2 * (numberRanks - 1)
      modifies this`currentStep, this`currentIndex, this`notes, this`posted
      ensures Models(cfg) && Allocated(cfg, old(View()))
      ensures Performed(Trigger(cfg, rank, old(Control(Running, currentStep, currentIndex)), old(View())), old(posted),
                        false)
    {
      GatherOutcome(cfg, rank, Control(Running, currentStep, currentIndex), View());
      var madeProgress := TriggerGather();
    }

    /** The body of the copyIn loop: fills the next chunk buffer; padding keeps what it held. */
    method CopyInChunk(inputs: array<T>, i: nat, totalCopied: nat, ghost cfg: Config<T>) returns (copied: nat)
      requires Models(cfg) && inputs.Length == numberElements && inputs !in sourceMemory
      requires i < numberRanks && totalCopied == Offset(cfg, i)
      modifies this`memory, sourceReduce[i]
      ensures Models(cfg) && copied == Live(cfg, i)
      ensures memory == old(memory)[Src(i) := Chunk(cfg, inputs[..], i) + old(memory)[Src(i)][copied..]]
    {
      copied := pad;
      if totalCopied + copied > numberElements {
        copied := numberElements - totalCopied;
      }
      assert copied == Live(cfg, i);
      assert inputs[totalCopied..totalCopied + copied] == Chunk(cfg, inputs[..], i);
      CopyElements(inputs, totalCopied, copied, sourceReduce[i], 0);
      memory := memory[Src(i) := sourceReduce[i][..]];
    }

    /** `mem` after the first `i` chunks have been copied in. */
    ghost predicate CopiedUpTo(cfg: Config<T>, mem: map<Cell, seq<T>>, before: Proc<T>, x: seq<T>, i: nat)
      requires cfg.Valid() && Allocated(cfg, before) && |x| == cfg.n
    {
      mem.Keys == before.mem.Keys && forall j :: 0 <= j < cfg.p ==> CopiedAt(cfg, mem, before, x, i, j)
    }

    ghost predicate CopiedAt(cfg: Config<T>, mem: map<Cell, seq<T>>, before: Proc<T>, x: seq<T>, i: nat, j: nat)
      requires cfg.Valid() && Allocated(cfg, before) && |x| == cfg.n && j < cfg.p
    {
      && Src(j) in mem && Tgt(j) in mem && mem[Tgt(j)] == before.mem[Tgt(j)]
      && mem[Src(j)] == if j < i then Chunk(cfg, x, j) + before.mem[Src(j)][Live(cfg, j)..] else before.mem[Src(j)]
    }

    /** The copyIn loop, begun at `before`, stands in front of chunk `i`. */
    ghost predicate Copying(inputs: array<T>, cfg: Config<T>, before: Proc<T>, x: seq<T>, i: nat, total: nat)
      reads this`memory, sourceMemory, targetMemory, inputs
    {
      && Models(cfg) && inputs.Length == numberElements && inputs !in sourceMemory && inputs[..] == x
      && Allocated(cfg, before) && i <= numberRanks && total == Offset(cfg, i)
      && CopiedUpTo(cfg, memory, before, x, i)
    }

    method CopyNextChunk(inputs: array<T>, i: nat, totalCopied: nat, ghost cfg: Config<T>, ghost before: Proc<T>,
                         ghost x: seq<T>)
      returns (total: nat)
      requires Copying(inputs, cfg, before, x, i, totalCopied) && i < |sourceReduce|
      modifies this`memory, sourceMemory
      ensures Copying(inputs, cfg, before, x, i + 1, total)
    {
      var copied := CopyInChunk(inputs, i, totalCopied, cfg);
      total := totalCopied + copied;
      assert old(memory)[Src(i)] == before.mem[Src(i)] by {
        assert CopiedAt(cfg, old(memory), before, x, i, i);
      }
      CopiedStep(cfg, before, old(memory), memory, x, i);
    }

    method CopyInLoop(inputs: array<T>, ghost cfg: Config<T>, ghost before: Proc<T>, ghost x: seq<T>)
      returns (i: nat, totalCopied: nat)
      requires Copying(inputs, cfg, before, x, 0, 0)
      modifies this`memory, sourceMemory
      ensures Copying(inputs, cfg, before, x, i, totalCopied) && (i >= |sourceReduce| || totalCopied >= numberElements)
    {
      i, totalCopied := 0, 0;
      while i < |sourceReduce|
        invariant Copying(inputs, cfg, before, x, i, totalCopied)
      {
        totalCopied := CopyNextChunk(inputs, i, totalCopied, cfg, before, x);
        i := i + 1;
        if totalCopied >= numberElements { break; }
      }
    }

    method CopyInChunks(inputs: array<T>, ghost cfg: Config<T>)
      requires Models(cfg) && inputs.Length == numberElements && inputs !in sourceMemory
      modifies this`memory, sourceMemory
      ensures Models(cfg) && Allocated(cfg, old(View())) && memory == CopyIn(cfg, old(View()), inputs[..]).mem
    {
      ghost var before, x := View(), inputs[..];
      assert Allocated(cfg, before);
      var i, totalCopied := CopyInLoop(inputs, cfg, before, x);
      AllCopied(cfg, before, memory, x, i);
    }

    method CopyInImpl(inputs: array<T>, ghost cfg: Config<T>)
      requires Valid() && inputs.Length == numberElements
      requires inputs !in sourceMemory && inputs != dataFor1RankCase
      requires 0 < numberElements && 1 < numberRanks ==> Models(cfg)
      modifies this`memory, sourceMemory, dataFor1RankCase
      ensures numberRanks == 1 ==> dataFor1RankCase[..] == inputs[..]
      ensures 0 < numberElements && 1 < numberRanks ==>
                && Models(cfg) && Allocated(cfg, old(View())) && View() == CopyIn(cfg, old(View()), inputs[..])
    {
      if numberRanks == 1 {
        CopyElements(inputs, 0, numberElements, dataFor1RankCase, 0);
      } else if |sourceReduce| > 0 {
        CopyInChunks(inputs, cfg);
      }
    }

    lemma CopiedStep(cfg: Config<T>, before: Proc<T>, mem: map<Cell, seq<T>>, mem': map<Cell, seq<T>>, x: seq<T>,
                     i: nat)
      requires cfg.Valid() && Allocated(cfg, before) && |x| == cfg.n && i < cfg.p && CopiedUpTo(cfg, mem, before, x, i)
      requires mem' == mem[Src(i) := Chunk(cfg, x, i) + before.mem[Src(i)][Live(cfg, i)..]]
      ensures CopiedUpTo(cfg, mem', before, x, i + 1)
    {
      var n := i + 1;
      forall j | 0 <= j < cfg.p ensures CopiedAt(cfg, mem', before, x, n, j) {
        assert CopiedAt(cfg, mem, before, x, i, j);
      }
    }

    lemma AllCopied(cfg: Config<T>, before: Proc<T>, after: map<Cell, seq<T>>, x: seq<T>, i: nat)
      requires cfg.Valid() && Allocated(cfg, before) && |x| == cfg.n && before.mem.Keys == Cells(cfg.p)
      requires i <= cfg.p && CopiedUpTo(cfg, after, before, x, i) && (i == cfg.p || Offset(cfg, i) >= cfg.n)
      ensures after == CopyIn(cfg, before, x).mem
    {
      forall j | 0 <= j < cfg.p
        ensures Src(j) in after && Tgt(j) in after && after[Tgt(j)] == before.mem[Tgt(j)]
        ensures after[Src(j)] == Chunk(cfg, x, j) + before.mem[Src(j)][Live(cfg, j)..]
      {
        assert CopiedAt(cfg, after, before, x, i, j);
        if i <= j { NothingLeft(cfg, i, j); }
      }
      CopiedRows(cfg, before, after, x);
    }

    /** The copyOut loop stands in front of chunk `i`. */
    ghost predicate CopyingOut(outputs: array<T>, cfg: Config<T>, i: nat, total: nat)
      reads this`memory, this`notes, sourceMemory, targetMemory, outputs
    {
      && Models(cfg) && outputs.Length == numberElements && outputs !in sourceMemory + targetMemory
      && i <= numberRanks && total == Offset(cfg, i) <= numberElements
      && Allocated(cfg, View()) && outputs[..total] == CopyOut(cfg, View(), i)
    }

    /** The body of the copyOut loop. */
    method CopyOutChunk(outputs: array<T>, i: nat, totalCopied: nat, ghost cfg: Config<T>)
      returns (total: nat)
      requires CopyingOut(outputs, cfg, i, totalCopied) && i < |sourceGather|
      modifies outputs
      ensures CopyingOut(outputs, cfg, i + 1, total)
    {
      var copied := pad;
      if totalCopied + copied > numberElements {
        copied := numberElements - totalCopied;
      }
      assert copied == Live(cfg, i);
      CopyElements(sourceGather[i], 0, copied, outputs, totalCopied);
      total := totalCopied + copied;
      assert sourceGather[i][0..copied] == memory[Src(i)][..copied];
    }

    method CopyOutLoop(outputs: array<T>, ghost cfg: Config<T>) returns (i: nat, totalCopied: nat)
      requires CopyingOut(outputs, cfg, 0, 0)
      modifies outputs
      ensures CopyingOut(outputs, cfg, i, totalCopied) && (i >= |sourceGather| || totalCopied >= numberElements)
    {
      i, totalCopied := 0, 0;
      while i < |sourceGather|
        invariant CopyingOut(outputs, cfg, i, totalCopied)
      {
        totalCopied := CopyOutChunk(outputs, i, totalCopied, cfg);
        i := i + 1;
        if totalCopied >= numberElements { break; }
      }
    }

    method CopyOutChunks(outputs: array<T>, ghost cfg: Config<T>)
      requires Models(cfg) && Offset(cfg, cfg.p) == cfg.n && outputs.Length == numberElements
      requires outputs !in sourceMemory + targetMemory
      modifies outputs
      ensures Models(cfg) && Allocated(cfg, View()) && outputs[..] == CopyOut(cfg, View(), cfg.p)
    {
      var i, totalCopied := CopyOutLoop(outputs, cfg);
      AllCopiedOut(outputs, cfg, i, totalCopied);
    }

    lemma AllCopiedOut(outputs: array<T>, cfg: Config<T>, i: nat, total: nat)
      requires CopyingOut(outputs, cfg, i, total) && (i >= |sourceGather| || total >= numberElements)
      requires Offset(cfg, cfg.p) == cfg.n
      ensures outputs[..] == CopyOut(cfg, View(), cfg.p)
    {
      NothingToCopy(cfg, View(), i, cfg.p);
      assert outputs[..total] == outputs[..];
    }

    method CopyOutImpl(outputs: array<T>, ghost cfg: Config<T>)
      requires Valid() && Padded() && outputs.Length == numberElements
      requires outputs !in sourceMemory + targetMemory && outputs != dataFor1RankCase
      requires 0 < numberElements && 1 < numberRanks ==> Models(cfg)
      modifies outputs
      ensures numberRanks == 1 ==> outputs[..] == dataFor1RankCase[..]
      ensures 0 < numberElements && 1 < numberRanks ==>
                Models(cfg) && Allocated(cfg, View()) && outputs[..] == CopyOut(cfg, View(), cfg.p)
    {
      if numberRanks == 1 {
        CopyElements(dataFor1RankCase, 0, numberElements, outputs, 0);
      } else if |sourceGather| > 0 {
        ChunksCover(cfg);
        CopyOutChunks(outputs, cfg);
      }
    }
  }

  /** Chunks of that length hold all elements. */
  lemma ChunksCover<T>(cfg: Config<T>)
    requires cfg.Valid() && 0 < cfg.n && cfg.pad == CeilDiv(cfg.n, cfg.p)
    ensures Offset(cfg, cfg.p) == cfg.n
  {
    Covered(cfg, 0);
  }

  lemma ReduceOutcome<T>(cfg: Config<T>, r: nat, ctl: Control, proc: Proc<T>)
    requires cfg.Valid() && ControlOk(cfg, r, ctl) && Allocated(cfg, proc) && ctl.phase.Running? && ctl.step < cfg.p - 1
    ensures var p, c := cfg.p, ctl.index;
            Trigger(cfg, r, ctl, proc) ==
            if Red(c) !in proc.notes then Outcome(ctl, proc, [], false)
            else Outcome(Control(Running, ctl.step + 1, Prev(p, c)),
                         Process(proc.mem[Src(c) := Zip(cfg.op, proc.mem[Src(c)], proc.mem[Tgt(c)])],
                                 proc.notes - {Red(c)}),
                         [if ctl.step != p - 2 then ReduceWrite(p, r, c) else GatherWrite(p, r, c)], false)
  {}

  lemma GatherOutcome<T>(cfg: Config<T>, r: nat, ctl: Control, proc: Proc<T>)
    requires cfg.Valid() && ControlOk(cfg, r, ctl) && Allocated(cfg, proc) && ctl.phase.Running?
    requires cfg.p - 1 <= ctl.step < 2 * (cfg.p - 1)
    ensures var p, c := cfg.p, ctl.index;
            Trigger(cfg, r, ctl, proc) ==
            if Gat(c) !in proc.notes then Outcome(ctl, proc, [], false)
            else Outcome(Control(Running, ctl.step + 1, Prev(p, c)), Process(proc.mem, proc.notes - {Gat(c)}),
                         [if ctl.step != 2 * (p - 1) - 1 then GatherWrite(p, r, c) else GatherAck(p, r, c)], false)
  {}

  lemma CopiedRows<T>(cfg: Config<T>, before: Proc<T>, after: map<Cell, seq<T>>, x: seq<T>)
    requires cfg.Valid() && Allocated(cfg, before) && |x| == cfg.n
    requires before.mem.Keys == after.Keys == Cells(cfg.p)
    requires forall j :: 0 <= j < cfg.p ==> after[Tgt(j)] == before.mem[Tgt(j)]
    requires forall j :: 0 <= j < cfg.p ==> after[Src(j)] == Chunk(cfg, x, j) + before.mem[Src(j)][Live(cfg, j)..]
    ensures after == CopyIn(cfg, before, x).mem
  {}

  /** Once the copy loops have reached the last element, the later chunks are all padding. */
  lemma {:induction false} NothingLeft<T>(cfg: Config<T>, i: nat, j: nat)
    requires i <= j && Offset(cfg, i) == cfg.n
    ensures Offset(cfg, j) == cfg.n && Live(cfg, j) == 0
  {
    if i == j {
    } else {
      NothingLeft(cfg, i, j - 1);
    }
  }

  lemma {:induction false} NothingToCopy<T>(cfg: Config<T>, proc: Proc<T>, i: nat, j: nat)
    requires cfg.Valid() && Allocated(cfg, proc) && i <= j <= cfg.p && Offset(cfg, i) == cfg.n
    ensures CopyOut(cfg, proc, j) == CopyOut(cfg, proc, i)
  {
    if i == j {
    } else {
      NothingToCopy(cfg, proc, i, j - 1);
      NothingLeft(cfg, i, j - 1);
    }
  }
}
