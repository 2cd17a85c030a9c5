/** The recursive-doubling allreduce object of one rank.  Its methods update buffers, counters
    and notifications in place, and each is proved to do what the machine's local step does. */
module AllreduceDoubling {
  import opened Bits
  import opened Reduction
  import opened Transport
  import opened RecursiveDoubling
  import opened Buffers

  /** The largest power of two up to `i`. */
  function NearestPowerOfTwoLessEqual(i: nat): (n: nat)
    requires 1 <= i
    ensures n <= i < 2 * n && exists k :: n == Pow2(k)
  {
    Pow2(FloorLog2(i))
  }

  class Doubling<T(0)> {
    const numberElements: nat
    const numberRanks: nat
    const numberRanksUsed: nat
    const numberRanksRest: nat
    const numberIterations: nat
    const rank: nat
    const reductionOp: (T, T) -> T
    const neighbors: seq<nat>
    /** The memory behind all source endpoints: every source buffer is a copy of the first. */
    const source: array<T>
    const targets: seq<array<T>>
    const foldTarget: array<T>
    const dataFor1RankCase: array<T>
    var iteration: nat
    var algStage: Stage
    /** Raised notifications of this rank, and the transfers it has posted. */
    var notes: set<Slot>
    var posted: seq<Msg>
    /** The contents of the buffers. */
    ghost var memory: map<Cell, seq<T>>

    predicate IsExtraRank() {
      rank >= 2 * numberRanksRest
    }

    predicate IsEvenNonExtraRank() {
      rank % 2 == 0 && !IsExtraRank()
    }

    predicate IsOddNonExtraRank() {
      rank % 2 == 1 && !IsExtraRank()
    }

    predicate IsActiveRank() {
      IsEvenNonExtraRank() || IsExtraRank()
    }

    ghost predicate Valid() {
      && rank < numberRanks
      && numberRanksUsed == Pow2(numberIterations) <= numberRanks < 2 * numberRanksUsed
      && numberRanksRest == numberRanks - numberRanksUsed && dataFor1RankCase.Length == numberElements
      && (0 < numberElements && 1 < numberRanks ==>
            && 1 <= numberIterations
            && |targets| == |neighbors| == (if IsActiveRank() then numberIterations else 0)
            && (forall i :: 0 <= i < |targets| ==>
                              && targets[i].Length == numberElements && targets[i] != source && targets[i] != foldTarget
                              && neighbors[i]
                                 == UnlabelRank(numberRanksRest, Flip(RelabelRank(numberRanksRest, rank), i)))
            && (forall i, j :: 0 <= i < j < |targets| ==> targets[i] != targets[j])
            && source.Length == foldTarget.Length == numberElements && source != foldTarget)
    }

    ghost predicate Coherent()
      reads this`memory, source, foldTarget, targets
      requires Valid() && 0 < numberElements && 1 < numberRanks
    {
      && (if IsActiveRank() then Src else FoldSrc) in memory
      && memory[if IsActiveRank() then Src else FoldSrc] == source[..]
      && (!IsExtraRank() ==> FoldTgt in memory && memory[FoldTgt] == foldTarget[..])
      && forall i :: 0 <= i < |targets| ==> Tgt(i) in memory && memory[Tgt(i)] == targets[i][..]
    }

    ghost predicate Models(cfg: Config<T>)
      reads this`memory, source, foldTarget, targets
    {
      && cfg.Valid() && Valid() && cfg.p == numberRanks && cfg.n == numberElements && cfg.k == numberIterations
      && cfg.op == reductionOp && Coherent()
    }

    ghost function View(): Proc<T>
      reads this`memory, this`notes
    {
      Process(memory, notes)
    }

    /** The partners of the doubling steps. */
    static method Partners(iterations: nat, rest: nat, rank: nat) returns (partners: seq<nat>)
      ensures |partners| == iterations
      ensures forall i :: 0 <= i < iterations ==>
                            partners[i] == UnlabelRank(rest, Flip(RelabelRank(rest, rank), i))
    {
      partners := [];
      for i := 0 to iterations
        invariant |partners| == i
        invariant forall j :: 0 <= j < i ==> partners[j] == UnlabelRank(rest, Flip(RelabelRank(rest, rank), j))
      {
        var distance := Pow2(i);
        var relabeled := if rank < 2 * rest then rank / 2 else rank - rest;
        var relabeledNeighbor := Xor(relabeled, distance);
        XorPow2IsFlip(relabeled, i);
        var neighbor := if relabeledNeighbor < rest then relabeledNeighbor * 2 else relabeledNeighbor + rest;
        partners := partners + [neighbor];
      }
    }

    /** The target buffers, and what they hold. */
    static method NewTargets(n: nat, length: nat) returns (buffers: seq<array<T>>, ghost mem: map<Cell, seq<T>>)
      ensures |buffers| == n
      ensures forall i :: 0 <= i < n ==>
                            && fresh(buffers[i]) && buffers[i].Length == length
                            && Tgt(i) in mem && mem[Tgt(i)] == buffers[i][..]
      ensures forall i, j :: 0 <= i < j < n ==> buffers[i] != buffers[j]
    {
      buffers, mem := [], map[];
      for i := 0 to n
        invariant |buffers| == i
        invariant forall j :: 0 <= j < i ==>
                    && fresh(buffers[j]) && buffers[j].Length == length
                    && Tgt(j) in mem && mem[Tgt(j)] == buffers[j][..]
        invariant forall j, k :: 0 <= j < k < i ==> buffers[j] != buffers[k]
      {
        var target := new T[length];
        buffers := buffers + [target];
        mem := mem[Tgt(i) := target[..]];
      }
    }

    constructor (numberElements: nat, numberRanks: nat, rank: nat, op: (T, T) -> T)
      requires 1 <= numberRanks && rank < numberRanks
      ensures Valid() && this.numberElements == numberElements && this.numberRanks == numberRanks
      ensures this.rank == rank && this.reductionOp == op && algStage == NotStarted && iteration == 0
      ensures notes == {} && posted == [] && (0 < numberElements && 1 < numberRanks ==> Coherent())
    {
      this.numberElements, this.numberRanks, this.rank, this.reductionOp := numberElements, numberRanks, rank, op;
      var used := NearestPowerOfTwoLessEqual(numberRanks);
      var rest := numberRanks - used;
      var iterations := FloorLog2(used);
      FloorLog2OfPow2(FloorLog2(numberRanks));
      this.numberRanksUsed, this.numberRanksRest, this.numberIterations := used, rest, iterations;
      var active := rank >= 2 * rest || rank % 2 == 0;
      this.dataFor1RankCase := new T[numberElements];
      var first := new T[numberElements];
      var fold := new T[numberElements];
      var partners := Partners(if active then iterations else 0, rest, rank);
      var buffers, mem := NewTargets(|partners|, numberElements);
      mem := mem[FoldTgt := fold[..]][(if active then Src else FoldSrc) := first[..]];
      this.source, this.foldTarget, this.targets, this.neighbors := first, fold, buffers, partners;
      this.iteration, this.algStage, this.notes, this.posted := 0, NotStarted, {}, [];
      this.memory := mem;
    }

    /** Tests a notification and resets it. */
    method CheckForNotification(slot: Slot) returns (raised: bool)
      modifies this`notes
      ensures raised <==> slot in old(notes)
      ensures notes == old(notes) - {slot} && (!raised ==> notes == old(notes))
    {
      raised := slot in notes;
      notes := notes - {slot};
    }

    /** source_buffers[i]->initTransfer() */
    method InitTransfer(i: nat, ghost cfg: Config<T>)
      requires Models(cfg) && IsActiveRank() && i < numberIterations
      modifies this`posted
      ensures posted == old(posted) + [SendData(cfg, rank, i)]
    {
      posted := posted + [Write(rank, Src, neighbors[i], Tgt(i), Dat(i))];
    }

    method StartImpl(ghost cfg: Config<T>)
      requires Valid() && (0 < numberElements && 1 < numberRanks ==> Models(cfg))
      modifies this`iteration, this`algStage, this`posted
      ensures numberElements == 0 || numberRanks == 1 ==> unchanged(this)
      ensures 0 < numberElements && 1 < numberRanks ==>
                var o := Start(cfg, rank, View());
                Control(algStage, iteration, false) == o.ctl && posted == old(posted) + o.posts && View() == o.proc
    {
      if numberElements == 0 || numberRanks == 1 { return; }
      iteration := 0;
      algStage := if !IsExtraRank() then InitialStep else WaitForData;
      if IsExtraRank() {
        InitTransfer(iteration, cfg);
      }
      if IsOddNonExtraRank() {
        posted := posted + [Write(rank, FoldSrc, rank - 1, FoldTgt, FoldDat)];
      }
    }

    /** apply_reduce_op into the source memory. */
    method Reduce(cell: Cell, received: array<T>, ghost cfg: Config<T>)
      requires Models(cfg) && IsActiveRank() && cell in memory
      requires received != source && received.Length == source.Length && memory[cell] == received[..]
      modifies this`memory, source
      ensures Models(cfg)
      ensures Src in old(memory) && |old(memory)[Src]| == |old(memory)[cell]|
      ensures memory == old(memory)[Src := Zip(cfg.op, old(memory)[Src], old(memory)[cell])]
    {
      ApplyReduceOp(reductionOp, source, received);
      memory := memory[Src := source[..]];
    }

    /** The initial step of an even rank: fold in the odd partner's vector. */
    method TriggerInitial(ghost cfg: Config<T>) returns (madeProgress: bool)
      requires Models(cfg) && IsEvenNonExtraRank() && algStage == InitialStep && iteration == 0
      modifies this`algStage, this`notes, this`posted, this`memory, source
      ensures Models(cfg) && Allocated(cfg, rank, old(View()))
      ensures madeProgress <==> algStage == WaitForData
      ensures var o := TriggerFold(cfg, rank, old(Control(algStage, iteration, false)), old(View()));
              Control(algStage, iteration, false) == o.ctl && posted == old(posted) + o.posts && View() == o.proc
    {
      madeProgress := CheckForNotification(FoldDat);
      if !madeProgress { return; }
      Reduce(FoldTgt, foldTarget, cfg);
      InitTransfer(iteration, cfg);
      algStage := WaitForData;
    }

    method TriggerFinal(ghost cfg: Config<T>) returns (done: bool)
      requires Models(cfg) && algStage == FinalStep && iteration == numberIterations
      modifies this`notes, this`posted
      ensures Models(cfg) && Allocated(cfg, rank, View())
      ensures var o := TriggerMain(cfg, rank, Control(algStage, iteration, false), old(View()));
              Control(algStage, iteration, done) == o.ctl && posted == old(posted) + o.posts && View() == o.proc
    {
      if numberRanksRest == 0 { return true; }
      done := true;
      if IsEvenNonExtraRank() {
        done := CheckForNotification(FoldAck);
      } else if IsOddNonExtraRank() {
        done := CheckForNotification(FoldDat);
        if done {
          posted := posted + [Notify(rank - 1, FoldAck)];
        }
      }
    }

    method TriggerData(ghost cfg: Config<T>)
      requires Models(cfg) && IsActiveRank() && algStage == WaitForData && iteration < numberIterations
      modifies this`algStage, this`notes, this`posted
      ensures Models(cfg) && Allocated(cfg, rank, View())
      ensures var o := TriggerMain(cfg, rank, old(Control(algStage, iteration, false)), old(View()));
              Control(algStage, iteration, false) == o.ctl && posted == old(posted) + o.posts && View() == o.proc
    {
      var madeProgress := CheckForNotification(Dat(iteration));
      if !madeProgress { return; }
      posted := posted + [Notify(neighbors[iteration], Ack(iteration))];
      algStage := WaitForAck;
    }

    method TriggerAck(ghost cfg: Config<T>)
      requires Models(cfg) && IsActiveRank() && algStage == WaitForAck && iteration < numberIterations
      modifies this`algStage, this`iteration, this`notes, this`posted, this`memory, source
      ensures Models(cfg) && Allocated(cfg, rank, old(View()))
      ensures var o := TriggerMain(cfg, rank, old(Control(algStage, iteration, false)), old(View()));
              Control(algStage, iteration, false) == o.ctl && posted == old(posted) + o.posts && View() == o.proc
    {
      var madeProgress := CheckForNotification(Ack(iteration));
      if !madeProgress { return; }
      Reduce(Tgt(iteration), targets[iteration], cfg);
      NextIteration(cfg);
    }

    /** After the reduction: the next exchange, or, after the last one, the result for the odd partner. */
    method NextIteration(ghost cfg: Config<T>)
      requires Models(cfg) && IsActiveRank() && iteration < numberIterations
      modifies this`algStage, this`iteration, this`posted
      ensures Models(cfg) && iteration == old(iteration) + 1
      ensures old(iteration) != numberIterations - 1 ==>
                algStage == WaitForData && posted == old(posted) + [SendData(cfg, rank, iteration)]
      ensures old(iteration) == numberIterations - 1 ==>
                algStage == FinalStep && posted == old(posted) + if IsEven(cfg, rank) then [FoldOut(rank)] else []
    {
      if iteration != numberIterations - 1 {
        InitTransfer(iteration + 1, cfg);
        algStage := WaitForData;
      } else {
        if IsEvenNonExtraRank() {
          posted := posted + [Write(rank, Src, rank + 1, FoldTgt, FoldDat)];
        }
        algStage := FinalStep;
      }
      iteration := iteration + 1;
    }

    /** One call is the fold step of a rank that still has to fold, then, unless that rank has
        to wait, the main step. */
    method TriggerProgressImpl(ghost cfg: Config<T>) returns (done: bool)
      requires Valid()
      requires 0 < numberElements && 1 < numberRanks ==>
                 Models(cfg) && ControlOk(cfg, rank, Control(algStage, iteration, false)) && algStage != NotStarted
      modifies this`algStage, this`iteration, this`notes, this`posted, this`memory, source
      ensures numberElements == 0 || numberRanks == 1 ==> done && unchanged(this)
      ensures 0 < numberElements && 1 < numberRanks ==>
                && Models(cfg) && Allocated(cfg, rank, old(View()))
                && var o := TriggerCall(cfg, rank, old(Control(algStage, iteration, false)), old(View()));
                Control(algStage, iteration, done) == o.ctl && posted == old(posted) + o.posts && View() == o.proc
      ensures 0 < numberElements && 1 < numberRanks && done ==>
                && old(algStage) == FinalStep && memory == old(memory) && source[..] == old(source[..])
                && (IsOddNonExtraRank() ==>
                      && FoldDat in old(notes) && notes == old(notes) - {FoldDat}
                      && posted == old(posted) + [Notify(rank - 1, FoldAck)])
                && (IsEvenNonExtraRank() ==>
                      FoldAck in old(notes) && notes == old(notes) - {FoldAck} && posted == old(posted))
                && (IsExtraRank() ==> notes == old(notes) && posted == old(posted))
    {
      if numberElements == 0 || numberRanks == 1 { return true; }
      done := false;
      if IsEvenNonExtraRank() && algStage == InitialStep {
        var madeProgress := TriggerInitial(cfg);
        if !madeProgress { return; }
      }
      if algStage == FinalStep {
        done := TriggerFinal(cfg);
      } else if IsActiveRank() {
        if algStage == WaitForData { TriggerData(cfg); } else { TriggerAck(cfg); }
      } else {
        if iteration == numberIterations - 1 { algStage := FinalStep; }
        iteration := iteration + 1;
      }
    }

    method CopyInImpl(inputs: array<T>, ghost cfg: Config<T>)
      requires Valid() && inputs.Length == numberElements && inputs != source && inputs != dataFor1RankCase
      requires 0 < numberElements && 1 < numberRanks ==> Models(cfg)
      modifies this`memory, source, dataFor1RankCase
      ensures 0 < numberElements && numberRanks == 1 ==> dataFor1RankCase[..] == inputs[..]
      ensures 0 < numberElements && 1 < numberRanks ==>
                Models(cfg) && View() == CopyIn(cfg, rank, old(View()), inputs[..])
    {
      if numberElements > 0 {
        if numberRanks == 1 {
          CopyBuffer(inputs, dataFor1RankCase);
        } else {
          CopyBuffer(inputs, source);
          memory := memory[if IsActiveRank() then Src else FoldSrc := source[..]];
        }
      }
    }

    method CopyOutImpl(outputs: array<T>, ghost cfg: Config<T>)
      requires Valid() && outputs.Length == numberElements
      requires outputs != source && outputs != foldTarget && outputs !in targets && outputs != dataFor1RankCase
      requires 0 < numberElements && 1 < numberRanks ==> Models(cfg)
      modifies outputs
      ensures 0 < numberElements && numberRanks == 1 ==> outputs[..] == dataFor1RankCase[..]
      ensures 0 < numberElements && 1 < numberRanks ==>
                Models(cfg) && Allocated(cfg, rank, View()) && outputs[..] == CopyOut(cfg, rank, View())
    {
      if numberElements > 0 && numberRanks > 1 {
        if IsActiveRank() { CopyBuffer(source, outputs); } else { CopyBuffer(foldTarget, outputs); }
      } else if numberElements > 0 {
        CopyBuffer(dataFor1RankCase, outputs);
      }
    }
  }

  /** One call of triggerProgress: the fold step of a rank that still has to fold, then, unless that
      rank has to wait, the main step. */
  ghost function TriggerCall<T>(cfg: Config<T>, x: nat, ctl: Control, proc: Proc<T>): Outcome<T>
    requires cfg.Valid() && Allocated(cfg, x, proc) && ControlOk(cfg, x, ctl) && ctl.stage != NotStarted && !ctl.done
  {
    if ctl.stage.InitialStep? && IsEven(cfg, x) then
      var o := TriggerFold(cfg, x, ctl, proc);
      if o.ctl.stage.InitialStep? then o
      else
        var o' := TriggerMain(cfg, x, o.ctl, o.proc);
        Outcome(o'.ctl, o'.proc, o.posts + o'.posts)
    else TriggerMain(cfg, x, ctl, proc)
  }

  /** Two actions of a rank in a row. */
  lemma ActTwice<C, S, V>(net: Net<C, S, V>, x: nat, proc: Process<C, S, V>, posts: seq<Transfer<C, S>>,
                          proc': Process<C, S, V>, posts': seq<Transfer<C, S>>)
    requires x < |net.procs|
    ensures Act(Act(net, x, proc, posts), x, proc', posts') == Act(net, x, proc', posts + posts')
  {}

  lemma FoldTakesOn<T>(cfg: Config<T>, x: nat, ctl: Control, proc: Proc<T>)
    requires cfg.Valid() && Allocated(cfg, x, proc) && ControlOk(cfg, x, ctl) && IsEven(cfg, x)
    requires ctl.stage.InitialStep?
    ensures var o := TriggerFold(cfg, x, ctl, proc);
            && Allocated(cfg, x, o.proc) && ControlOk(cfg, x, o.ctl)
            && (o.ctl.stage.InitialStep? || o.ctl.stage.WaitForData?)
  {}

  lemma FoldShape<T>(cfg: Config<T>, s: State<T>, x: nat)
    requires Shape(cfg, s) && Enabled(cfg, s, DoFold(x))
    ensures Shape(cfg, Step(cfg, s, DoFold(x)))
  {
    FoldTakesOn(cfg, x, s.ctl[x], s.net.procs[x]);
  }

  lemma FoldThenMain<T>(cfg: Config<T>, s: State<T>, x: nat)
    requires Shape(cfg, s) && Enabled(cfg, s, DoFold(x)) && Step(cfg, s, DoFold(x)).ctl[x].stage.WaitForData?
    requires Shape(cfg, Step(cfg, s, DoFold(x))) && !Step(cfg, s, DoFold(x)).ctl[x].done
    ensures var folded := Step(cfg, s, DoFold(x));
            var o := TriggerMain(cfg, x, folded.ctl[x], folded.net.procs[x]);
            && Enabled(cfg, folded, DoMain(x))
            && Step(cfg, folded, DoMain(x))
               == State(Act(s.net, x, o.proc, TriggerFold(cfg, x, s.ctl[x], s.net.procs[x]).posts + o.posts),
                        s.ctl[x := o.ctl])
  {
    var folded, o := Step(cfg, s, DoFold(x)), TriggerFold(cfg, x, s.ctl[x], s.net.procs[x]);
    var o' := TriggerMain(cfg, x, folded.ctl[x], folded.net.procs[x]);
    ActTwice(s.net, x, o.proc, o.posts, o'.proc, o'.posts);
  }

  /** In any state of the machine, a call of rank `x` is its main step, or the fold step of an even rank
      in its initial step, followed by the main step if that has taken the rank on. */
  lemma CallIsMachine<T>(cfg: Config<T>, s: State<T>, x: nat)
    requires Shape(cfg, s) && x < cfg.p && s.ctl[x].stage != NotStarted && !s.ctl[x].done
    ensures var o := TriggerCall(cfg, x, s.ctl[x], s.net.procs[x]);
            var after := State(Act(s.net, x, o.proc, o.posts), s.ctl[x := o.ctl]);
            if IsEven(cfg, x) && s.ctl[x].stage.InitialStep? then
              && Enabled(cfg, s, DoFold(x))
              && var folded := Step(cfg, s, DoFold(x));
              if folded.ctl[x].stage.InitialStep? then after == folded
              else Shape(cfg, folded) && Enabled(cfg, folded, DoMain(x)) && after == Step(cfg, folded, DoMain(x))
            else Enabled(cfg, s, DoMain(x)) && after == Step(cfg, s, DoMain(x))
  {
    if IsEven(cfg, x) && s.ctl[x].stage.InitialStep? {
      FoldTakesOn(cfg, x, s.ctl[x], s.net.procs[x]);
      FoldShape(cfg, s, x);
      if !Step(cfg, s, DoFold(x)).ctl[x].stage.InitialStep? { FoldThenMain(cfg, s, x); }
    }
  }
}
