/** What recursive doubling guarantees in every reachable state of one execution, for any number
    of ranks (a power of two or not) and any interleaving of calls and deliveries. */
module DoublingTheorems {
  import opened Bits
  import opened Reduction
  import opened Transport
  import opened RecursiveDoubling
  import opened DoublingInvariant

  // ----- preservation of the contents -----

  /** A call changes only its own rank. */
  lemma ContentsElsewhere<T>(cfg: Config<T>, s: State<T>, s': State<T>, x: nat)
    requires Shape(cfg, s) && Shape(cfg, s') && x < cfg.p && ContentsAt(cfg, s, x)
    requires s'.net.procs[x] == s.net.procs[x] && s'.ctl[x] == s.ctl[x]
    ensures ContentsAt(cfg, s', x)
  {
    forall i | 0 <= i < cfg.k ensures TargetAt(cfg, s', x, i) {
      assert TargetAt(cfg, s, x, i);
    }
  }

  lemma StartContents<T>(cfg: Config<T>, s: State<T>, x: nat)
    requires Inv(cfg, s) && Enabled(cfg, s, DoStart(x)) && Shape(cfg, Step(cfg, s, DoStart(x)))
    ensures ContentsAt(cfg, Step(cfg, s, DoStart(x)), x)
  {
    assert ContentsAt(cfg, s, x);
    forall i | 0 <= i < cfg.k ensures TargetAt(cfg, Step(cfg, s, DoStart(x)), x, i) {
      assert TargetAt(cfg, s, x, i);
    }
  }

  lemma FoldContents<T>(cfg: Config<T>, s: State<T>, x: nat)
    requires Inv(cfg, s) && Enabled(cfg, s, DoFold(x)) && Shape(cfg, Step(cfg, s, DoFold(x)))
    ensures ContentsAt(cfg, Step(cfg, s, DoFold(x)), x)
  {
    assert ContentsAt(cfg, s, x);
    forall i | 0 <= i < cfg.k ensures TargetAt(cfg, Step(cfg, s, DoFold(x)), x, i) {
      assert TargetAt(cfg, s, x, i);
    }
  }

  lemma MainSource<T>(cfg: Config<T>, s: State<T>, x: nat)
    requires Inv(cfg, s) && Enabled(cfg, s, DoMain(x)) && Shape(cfg, Step(cfg, s, DoMain(x)))
    ensures SourceAt(cfg, Step(cfg, s, DoMain(x)), x)
  {
    assert ContentsAt(cfg, s, x);
    if s.ctl[x].stage.WaitForAck? && Ack(s.ctl[x].iteration) in s.net.procs[x].notes {
      ReduceSource(cfg, s, x);
    } else {
      MainKeepsSource(cfg, s, x);
    }
  }

  /** A main step that does not reduce. */
  lemma MainKeepsSource<T>(cfg: Config<T>, s: State<T>, x: nat)
    requires Shape(cfg, s) && Enabled(cfg, s, DoMain(x)) && SourceAt(cfg, s, x)
    requires !(s.ctl[x].stage.WaitForAck? && Ack(s.ctl[x].iteration) in s.net.procs[x].notes)
    requires Shape(cfg, Step(cfg, s, DoMain(x)))
    ensures SourceAt(cfg, Step(cfg, s, DoMain(x)), x)
  {
    var o := Local(cfg, s, DoMain(x));
    assert o.proc.mem == s.net.procs[x].mem && (IsOdd(cfg, x) || o.ctl.iteration == s.ctl[x].iteration);
  }

  /** A main step that does. */
  lemma ReduceOutcome<T>(cfg: Config<T>, x: nat, ctl: Control, proc: Proc<T>)
    requires cfg.Valid() && Allocated(cfg, x, proc) && ControlOk(cfg, x, ctl)
    requires ctl.stage.WaitForAck? && Ack(ctl.iteration) in proc.notes
    ensures var o := TriggerMain(cfg, x, ctl, proc);
            && (o.ctl.stage.WaitForData? || o.ctl.stage.FinalStep?) && o.ctl.iteration == ctl.iteration + 1
            && o.proc.mem == proc.mem[Src := Zip(cfg.op, proc.mem[Src], proc.mem[Tgt(ctl.iteration)])]
  {}

  lemma ReduceSource<T>(cfg: Config<T>, s: State<T>, x: nat)
    requires Shape(cfg, s) && Enabled(cfg, s, DoMain(x)) && ContentsAt(cfg, s, x)
    requires s.ctl[x].stage.WaitForAck? && Ack(s.ctl[x].iteration) in s.net.procs[x].notes
    requires Shape(cfg, Step(cfg, s, DoMain(x)))
    ensures SourceAt(cfg, Step(cfg, s, DoMain(x)), x)
  {
    var i, j, mem := s.ctl[x].iteration, Relabel(cfg, x), s.net.procs[x].mem;
    ReduceOutcome(cfg, x, s.ctl[x], s.net.procs[x]);
    ValueUnfolds(cfg, j, i);
    assert mem[Tgt(i)] == Value(cfg, Flip(j, i), i) by { assert TargetAt(cfg, s, x, i); }
    assert mem[Src] == Value(cfg, j, i);
  }

  lemma ValueUnfolds<T>(cfg: Config<T>, j: nat, i: nat)
    requires cfg.Valid()
    ensures Value(cfg, j, i + 1) == Zip(cfg.op, Value(cfg, j, i), Value(cfg, Flip(j, i), i))
  {}

  lemma MainFold<T>(cfg: Config<T>, s: State<T>, x: nat)
    requires Shape(cfg, s) && Enabled(cfg, s, DoMain(x)) && Shape(cfg, Step(cfg, s, DoMain(x))) && FoldAt(cfg, s, x)
    ensures FoldAt(cfg, Step(cfg, s, DoMain(x)), x)
  {}

  lemma MainTarget<T>(cfg: Config<T>, s: State<T>, x: nat, i: nat)
    requires Shape(cfg, s) && Enabled(cfg, s, DoMain(x)) && Shape(cfg, Step(cfg, s, DoMain(x)))
    requires i < cfg.k && TargetAt(cfg, s, x, i)
    ensures TargetAt(cfg, Step(cfg, s, DoMain(x)), x, i)
  {
    if IsActive(cfg, x) {
      MainKeeps(cfg, s, x, i);
      if Level(cfg, Step(cfg, s, DoMain(x)), x) == 2 + 2 * i { MainLevel(cfg, s, x, i); }
    }
  }

  /** A main step writes no target and raises no notification. */
  lemma MainKeeps<T>(cfg: Config<T>, s: State<T>, x: nat, i: nat)
    requires Shape(cfg, s) && Enabled(cfg, s, DoMain(x)) && i < cfg.k && IsActive(cfg, x)
    ensures var proc, proc' := s.net.procs[x], Local(cfg, s, DoMain(x)).proc;
            && proc'.notes <= proc.notes && Tgt(i) in proc.mem && Tgt(i) in proc'.mem
            && proc'.mem[Tgt(i)] == proc.mem[Tgt(i)]
  {}

  /** It comes to the level after a target's notification only by consuming it. */
  lemma MainLevel<T>(cfg: Config<T>, s: State<T>, x: nat, i: nat)
    requires Shape(cfg, s) && Enabled(cfg, s, DoMain(x)) && i < cfg.k && IsActive(cfg, x)
    requires Level(cfg, Step(cfg, s, DoMain(x)), x) == 2 + 2 * i
    ensures Level(cfg, s, x) == 2 + 2 * i || Dat(i) in s.net.procs[x].notes
  {}

  lemma MainTargets<T>(cfg: Config<T>, s: State<T>, x: nat)
    requires Inv(cfg, s) && Enabled(cfg, s, DoMain(x)) && Shape(cfg, Step(cfg, s, DoMain(x)))
    ensures FoldAt(cfg, Step(cfg, s, DoMain(x)), x)
    ensures forall i :: 0 <= i < cfg.k ==> TargetAt(cfg, Step(cfg, s, DoMain(x)), x, i)
  {
    assert ContentsAt(cfg, s, x);
    MainFold(cfg, s, x);
    forall i | 0 <= i < cfg.k ensures TargetAt(cfg, Step(cfg, s, DoMain(x)), x, i) {
      MainTarget(cfg, s, x, i);
    }
  }

  /** What a pending write is about to copy. */
  lemma CopiedData<T>(cfg: Config<T>, s: State<T>, t: Msg, i: nat)
    requires Inv(cfg, s) && t in s.net.pending && t.slot == Dat(i)
    ensures Legitimate(cfg, t) && t.src < cfg.p && i < cfg.k && Src in s.net.procs[t.src].mem
    ensures s.ctl[t.src].iteration == i && 1 + 2 * i <= Level(cfg, s, t.src) <= 2 + 2 * i
    ensures s.net.procs[t.src].mem[Src] == Value(cfg, Flip(Relabel(cfg, t.dst), i), i)
  {
    NotRaised(cfg, s, t);
    NeighborPairs(cfg, t.dst, i);
    var ack := Notify(t.src, Ack(i));
    assert Legitimate(cfg, ack) && Sender(cfg, ack) == t.dst;
    assert Balanced(cfg, s, ack);
    assert ContentsAt(cfg, s, t.src);
  }

  lemma CopiedFold<T>(cfg: Config<T>, s: State<T>, t: Msg)
    requires Inv(cfg, s) && t in s.net.pending && t.slot == FoldDat
    ensures Legitimate(cfg, t) && t.src < cfg.p && t.from in s.net.procs[t.src].mem
    ensures s.net.procs[t.src].mem[t.from]
            == if IsEven(cfg, t.dst) then cfg.input(t.dst + 1) else Value(cfg, Relabel(cfg, t.dst), cfg.k)
  {
    NotRaised(cfg, s, t);
    assert SourceAt(cfg, s, t.src) by { assert ContentsAt(cfg, s, t.src); }
    if IsEven(cfg, t.dst) {
      assert t == FoldIn(t.dst + 1);
    } else {
      CopiedResult(cfg, s, t);
    }
  }

  /** The result that an even rank sends back is its value after the last iteration. */
  lemma CopiedResult<T>(cfg: Config<T>, s: State<T>, t: Msg)
    requires Inv(cfg, s) && t in s.net.pending && t.slot == FoldDat && t == FoldOut(t.src) && t.src < cfg.p
    requires IsEven(cfg, t.src)
    requires Level(cfg, s, t.src) >= 2 * cfg.k + 1
    ensures t.from in s.net.procs[t.src].mem
    ensures s.net.procs[t.src].mem[t.from] == Value(cfg, Relabel(cfg, t.src), cfg.k)
    ensures Relabel(cfg, t.dst) == Relabel(cfg, t.src)
  {
    assert SourceAt(cfg, s, t.src) by { assert ContentsAt(cfg, s, t.src); }
  }

  /** What a delivery makes of the memory of its destination. */
  ghost predicate Landed<T>(s: State<T>, s': State<T>, t: Msg)
    requires t.dst < |s.net.procs| == |s'.net.procs|
  {
    var proc, proc' := s.net.procs[t.dst], s'.net.procs[t.dst];
    && s'.ctl == s.ctl && proc'.notes == proc.notes + {t.slot}
    && (t.Write? ==> t.into in proc'.mem && proc'.mem == proc.mem[t.into := proc'.mem[t.into]])
    && (t.Notify? ==> proc'.mem == proc.mem)
  }

  lemma DeliverLands<T>(cfg: Config<T>, s: State<T>, t: Msg)
    requires Shape(cfg, s) && Deliverable(s.net, t)
    ensures var s' := Step(cfg, s, DoDeliver(t));
            && |s'.net.procs| == |s.net.procs| && Landed(s, s', t)
            && (t.Write? ==> s'.net.procs[t.dst].mem[t.into] == s.net.procs[t.src].mem[t.from])
  {}

  lemma DeliverContents<T>(cfg: Config<T>, s: State<T>, t: Msg)
    requires Inv(cfg, s) && Deliverable(s.net, t) && Shape(cfg, Step(cfg, s, DoDeliver(t)))
    ensures ContentsAt(cfg, Step(cfg, s, DoDeliver(t)), t.dst)
  {
    var s', x := Step(cfg, s, DoDeliver(t)), t.dst;
    NotRaised(cfg, s, t);
    DeliverLands(cfg, s, t);
    if t.slot.Dat? { CopiedData(cfg, s, t, t.slot.i); }
    if t.slot.FoldDat? { CopiedFold(cfg, s, t); }
    assert ContentsAt(cfg, s, x);
    DeliverSource(cfg, s, s', t);
    DeliverFold(cfg, s, s', t);
    forall i | 0 <= i < cfg.k ensures TargetAt(cfg, s', x, i) {
      assert TargetAt(cfg, s, x, i);
      DeliverTarget(cfg, s, s', t, i);
    }
  }

  lemma DeliverSource<T>(cfg: Config<T>, s: State<T>, s': State<T>, t: Msg)
    requires Shape(cfg, s) && Shape(cfg, s') && t.dst < cfg.p && Legitimate(cfg, t) && Landed(s, s', t)
    requires SourceAt(cfg, s, t.dst)
    ensures SourceAt(cfg, s', t.dst)
  {}

  lemma DeliverFold<T>(cfg: Config<T>, s: State<T>, s': State<T>, t: Msg)
    requires Shape(cfg, s) && Shape(cfg, s') && t.dst < cfg.p && Legitimate(cfg, t) && Landed(s, s', t)
    requires FoldAt(cfg, s, t.dst)
    requires t.slot == FoldDat ==>
               s'.net.procs[t.dst].mem[t.into]
               == if IsEven(cfg, t.dst) then cfg.input(t.dst + 1) else Value(cfg, Relabel(cfg, t.dst), cfg.k)
    ensures FoldAt(cfg, s', t.dst)
  {}

  lemma DeliverTarget<T>(cfg: Config<T>, s: State<T>, s': State<T>, t: Msg, i: nat)
    requires Shape(cfg, s) && Shape(cfg, s') && i < cfg.k && t.dst < cfg.p && Landed(s, s', t)
    requires TargetAt(cfg, s, t.dst, i) && Legitimate(cfg, t)
    requires t.slot == Dat(i) ==>
               s'.net.procs[t.dst].mem[Tgt(i)] == Value(cfg, Flip(Relabel(cfg, t.dst), i), i)
    ensures TargetAt(cfg, s', t.dst, i)
  {}

  lemma StepInv<T>(cfg: Config<T>, s: State<T>, a: Action)
    requires Inv(cfg, s) && Enabled(cfg, s, a)
    ensures Inv(cfg, Step(cfg, s, a))
  {
    var s' := Step(cfg, s, a);
    var x := if a.DoDeliver? then a.t.dst else a.x;
    match a {
      case DoStart(_) => StartCounts(cfg, s, x); StartContents(cfg, s, x);
      case DoFold(_) => FoldCounts(cfg, s, x); FoldContents(cfg, s, x);
      case DoMain(_) => MainCounts(cfg, s, x); MainSource(cfg, s, x); MainTargets(cfg, s, x);
      case DoDeliver(t) => DeliverCounts(cfg, s, t); DeliverContents(cfg, s, t);
    }
    forall y | 0 <= y < cfg.p && y != x ensures ContentsAt(cfg, s', y) {
      ContentsElsewhere(cfg, s, s', y);
    }
  }

  lemma {:induction false} RunInv<T>(cfg: Config<T>, run: seq<State<T>>)
    requires IsRun(cfg, run)
    ensures Inv(cfg, run[|run| - 1])
  {
    var n := |run| - 1;
    if n == 0 {
      InitInv(cfg, run[0]);
    } else {
      RunInv(cfg, run[..n]);
      assert Transition(cfg, run[n - 1], run[n]);
      var a :| Enabled(cfg, run[n - 1], a) && run[n] == Step(cfg, run[n - 1], a);
      StepInv(cfg, run[n - 1], a);
    }
  }

  lemma ReachableInv<T(!new)>(cfg: Config<T>, s: State<T>)
    requires Reachable(cfg, s)
    ensures Inv(cfg, s)
  {
    var run :| IsRun(cfg, run) && run[|run| - 1] == s;
    RunInv(cfg, run);
  }

  // ----- the result -----

  /** The bracketing of a reduction over ranks. */
  datatype Tree = Leaf(rank: nat) | Node(local: Tree, received: Tree)

  function Leaves(t: Tree): multiset<nat> {
    match t
    case Leaf(r) => multiset{r}
    case Node(a, b) => Leaves(a) + Leaves(b)
  }

  function Eval<T>(t: Tree, op: (T, T) -> T, f: nat -> T): T {
    match t
    case Leaf(r) => f(r)
    case Node(a, b) => op(Eval(a, op, f), Eval(b, op, f))
  }

  /** The reduction that relabelled rank `j` holds after `i` iterations. */
  ghost function Plan<T>(cfg: Config<T>, j: nat, i: nat): Tree
    requires cfg.Valid()
    decreases i
  {
    if i == 0 then
      if j < cfg.Rest() then Node(Leaf(2 * j), Leaf(2 * j + 1)) else Leaf(j + cfg.Rest())
    else Node(Plan(cfg, j, i - 1), Plan(cfg, Flip(j, i - 1), i - 1))
  }

  /** Element `e` of every rank's input. */
  ghost function Column<T>(cfg: Config<T>, e: nat): nat -> T
    requires cfg.Valid() && e < cfg.n
  {
    (r: nat) => assert |cfg.input(r)| == cfg.n; cfg.input(r)[e]
  }

  lemma {:induction false} ValueIsPlan<T>(cfg: Config<T>, j: nat, i: nat, e: nat)
    requires cfg.Valid() && e < cfg.n
    ensures Value(cfg, j, i)[e] == Eval(Plan(cfg, j, i), cfg.op, Column(cfg, e))
    decreases i
  {
    if i == 0 {
    } else {
      ValueIsPlan(cfg, j, i - 1, e);
      ValueIsPlan(cfg, Flip(j, i - 1), i - 1, e);
    }
  }

  /** Of two numbers that agree above their lowest bit, one is equal to or the neighbour of the other. */
  lemma PairUp(a: nat, c: nat)
    ensures B(a / 2 == c / 2) == B(a == c) + B(a == Flip(c, 0))
  {}

  lemma PlanSplits<T>(cfg: Config<T>, j: nat, i: nat, x: nat)
    requires cfg.Valid()
    ensures Leaves(Plan(cfg, j, i + 1))[x] == Leaves(Plan(cfg, j, i))[x] + Leaves(Plan(cfg, Flip(j, i), i))[x]
  {}

  /** Before the first iteration a relabelled rank holds the inputs of the ranks it stands for. */
  lemma OwnLeaves<T>(cfg: Config<T>, j: nat, x: nat)
    requires cfg.Valid() && j < Pow2(cfg.k)
    ensures Leaves(Plan(cfg, j, 0))[x] == B(x < cfg.p && Shr(Relabel(cfg, x), 0) == Shr(j, 0))
  {
    if j < cfg.Rest() {
      assert Leaves(Plan(cfg, j, 0)) == multiset{2 * j} + multiset{2 * j + 1};
    } else {
      assert Leaves(Plan(cfg, j, 0)) == multiset{j + cfg.Rest()};
    }
  }

  lemma BlockDoubles(a: nat, j: nat, i: nat)
    ensures B(Shr(a, i + 1) == Shr(j, i + 1)) == B(Shr(a, i) == Shr(j, i)) + B(Shr(a, i) == Shr(Flip(j, i), i))
  {
    ShrFlip(j, i);
    ShrStep(j, i);
    ShrStep(a, i);
    PairUp(Shr(a, i), Shr(j, i));
  }

  /** After `i` iterations the contributions are exactly the aligned block of 2^i relabelled
      ranks, every original rank in it once. */
  lemma {:induction false} PlanIsBlock<T>(cfg: Config<T>, j: nat, i: nat, x: nat)
    requires cfg.Valid() && j < Pow2(cfg.k) && i <= cfg.k
    ensures IsBlock(cfg, j, i, x)
    decreases i
  {
    if i == 0 {
      OwnLeaves(cfg, j, x);
    } else {
      FlipBound(j, i - 1, cfg.k);
      PlanIsBlock(cfg, j, i - 1, x);
      PlanIsBlock(cfg, Flip(j, i - 1), i - 1, x);
      BlockStep(cfg, j, i - 1, x);
    }
  }

  ghost predicate IsBlock<T>(cfg: Config<T>, j: nat, i: nat, x: nat)
    requires cfg.Valid()
  {
    Leaves(Plan(cfg, j, i))[x] == B(x < cfg.p && Shr(Relabel(cfg, x), i) == Shr(j, i))
  }

  lemma BlockStep<T>(cfg: Config<T>, j: nat, i: nat, x: nat)
    requires cfg.Valid() && IsBlock(cfg, j, i, x) && IsBlock(cfg, Flip(j, i), i, x)
    ensures IsBlock(cfg, j, i + 1, x)
  {
    PlanSplits(cfg, j, i, x);
    if x < cfg.p { BlockDoubles(Relabel(cfg, x), j, i); }
  }

  lemma PlanIsComplete<T>(cfg: Config<T>, j: nat, r: nat)
    requires cfg.Valid() && j < Pow2(cfg.k)
    ensures Leaves(Plan(cfg, j, cfg.k))[r] == B(r < cfg.p)
  {
    PlanIsBlock(cfg, j, cfg.k, r);
    ShrZero(j, cfg.k);
    if r < cfg.p { ShrZero(Relabel(cfg, r), cfg.k); }
  }

  lemma OutputValue<T(!new)>(cfg: Config<T>, s: State<T>, x: nat)
    requires Reachable(cfg, s) && Shape(cfg, s) && x < cfg.p && s.ctl[x].done
    ensures CopyOut(cfg, x, s.net.procs[x]) == Value(cfg, Relabel(cfg, x), cfg.k)
    ensures Relabel(cfg, x) < Pow2(cfg.k)
  {
    ReachableInv(cfg, s);
    assert ContentsAt(cfg, s, x);
  }

  /** MAIN RESULT.  Every rank that is done, folded-out ranks included, holds a reduction in
      which every rank's input occurs exactly once. */
  lemma OutputIsReduction<T(!new)>(cfg: Config<T>, s: State<T>, x: nat, e: nat)
    requires Reachable(cfg, s) && Shape(cfg, s) && x < cfg.p && s.ctl[x].done && e < cfg.n
    ensures var out, plan := CopyOut(cfg, x, s.net.procs[x]), Plan(cfg, Relabel(cfg, x), cfg.k);
            && |out| == cfg.n && out[e] == Eval(plan, cfg.op, Column(cfg, e))
            && forall r: nat :: Leaves(plan)[r] == B(r < cfg.p)
  {
    OutputValue(cfg, s, x);
    ValueIsPlan(cfg, Relabel(cfg, x), cfg.k, e);
    forall r: nat ensures Leaves(Plan(cfg, Relabel(cfg, x), cfg.k))[r] == B(r < cfg.p) {
      PlanIsComplete(cfg, Relabel(cfg, x), r);
    }
  }

  lemma ZipCommutes<T(!new)>(op: (T, T) -> T, a: seq<T>, b: seq<T>)
    requires Commutative(op) && |a| == |b|
    ensures Zip(op, a, b) == Zip(op, b, a)
  {
    assert forall i :: 0 <= i < |a| ==> CommutativeAt(op, a[i], b[i]);
  }

  /** Relabelled ranks of one aligned block hold the same value, if `op` is commutative. */
  lemma {:induction false} BlockAgrees<T(!new)>(cfg: Config<T>, j: nat, j': nat, i: nat)
    requires cfg.Valid() && Commutative(cfg.op) && Shr(j, i) == Shr(j', i)
    ensures Value(cfg, j, i) == Value(cfg, j', i)
    decreases i
  {
    if i == 0 {
    } else {
      ShrStep(j, i - 1);
      ShrStep(j', i - 1);
      ShrFlip(j, i - 1);
      ShrFlip(j', i - 1);
      var f, f' := Flip(j, i - 1), Flip(j', i - 1);
      if Shr(j, i - 1) == Shr(j', i - 1) {
        BlockAgrees(cfg, j, j', i - 1);
        BlockAgrees(cfg, f, f', i - 1);
      } else {
        BlockAgrees(cfg, j, f', i - 1);
        BlockAgrees(cfg, f, j', i - 1);
        ZipCommutes(cfg.op, Value(cfg, j, i - 1), Value(cfg, f, i - 1));
      }
    }
  }

  lemma CompleteAgrees<T(!new)>(cfg: Config<T>, j: nat, j': nat)
    requires cfg.Valid() && Commutative(cfg.op) && j < Pow2(cfg.k) && j' < Pow2(cfg.k)
    ensures Value(cfg, j, cfg.k) == Value(cfg, j', cfg.k)
  {
    ShrZero(j, cfg.k);
    ShrZero(j', cfg.k);
    BlockAgrees(cfg, j, j', cfg.k);
  }

  /** Commutativity alone makes all ranks agree. */
  lemma RanksAgree<T(!new)>(cfg: Config<T>, s: State<T>, x: nat, y: nat)
    requires Reachable(cfg, s) && Shape(cfg, s) && Commutative(cfg.op)
    requires x < cfg.p && y < cfg.p && s.ctl[x].done && s.ctl[y].done
    ensures CopyOut(cfg, x, s.net.procs[x]) == CopyOut(cfg, y, s.net.procs[y])
  {
    OutputValue(cfg, s, x);
    OutputValue(cfg, s, y);
    CompleteAgrees(cfg, Relabel(cfg, x), Relabel(cfg, y));
  }

  /** f(lo) op (f(lo + 1) op (... op f(hi - 1))). */
  ghost function RankFold<T>(op: (T, T) -> T, f: nat -> T, lo: nat, hi: nat): T
    requires lo < hi
    decreases hi - lo
  {
    if lo + 1 == hi then f(lo) else op(f(lo), RankFold(op, f, lo + 1, hi))
  }

  lemma {:induction false} SplitFold<T(!new)>(op: (T, T) -> T, f: nat -> T, lo: nat, mid: nat, hi: nat)
    requires Associative(op) && lo < mid < hi
    ensures RankFold(op, f, lo, hi) == op(RankFold(op, f, lo, mid), RankFold(op, f, mid, hi))
    decreases mid - lo
  {
    if lo + 1 == mid {
    } else {
      SplitFold(op, f, lo + 1, mid, hi);
      assert AssociativeAt(op, f(lo), RankFold(op, f, lo + 1, mid), RankFold(op, f, mid, hi));
    }
  }

  /** The first original rank folded into relabelled rank `j`. */
  ghost function First<T>(cfg: Config<T>, j: nat): nat
    requires cfg.Valid()
  {
    if j <= cfg.Rest() then 2 * j else j + cfg.Rest()
  }

  /** Relabelled rank `j` holds the fold over the block from `j` to `end` in rank order. */
  ghost predicate FoldsBlock<T>(cfg: Config<T>, f: nat -> T, j: nat, end: nat, i: nat, e: nat)
    requires cfg.Valid() && e < cfg.n
  {
    && First(cfg, j) < First(cfg, end)
    && Value(cfg, j, i)[e] == RankFold(cfg.op, f, First(cfg, j), First(cfg, end))
  }

  lemma ValueStep<T>(cfg: Config<T>, j: nat, i: nat, e: nat)
    requires cfg.Valid() && e < cfg.n
    ensures Value(cfg, j, i + 1)[e] == cfg.op(Value(cfg, j, i)[e], Value(cfg, Flip(j, i), i)[e])
  {}

  /** The two halves of an aligned block, joined. */
  lemma JoinHalves<T(!new)>(cfg: Config<T>, f: nat -> T, j: nat, mid: nat, end: nat, i: nat, e: nat)
    requires cfg.Valid() && Associative(cfg.op) && e < cfg.n && Flip(j, i) == mid
    requires FoldsBlock(cfg, f, j, mid, i, e) && FoldsBlock(cfg, f, mid, end, i, e)
    ensures FoldsBlock(cfg, f, j, end, i + 1, e)
  {
    ValueStep(cfg, j, i, e);
    SplitFold(cfg.op, f, First(cfg, j), First(cfg, mid), First(cfg, end));
  }

  /** The first relabelled rank of the b-th aligned block of 2^i ranks holds the fold over the block. */
  ghost predicate FoldsAligned<T>(cfg: Config<T>, f: nat -> T, b: nat, i: nat, e: nat)
    requires cfg.Valid() && e < cfg.n
  {
    FoldsBlock(cfg, f, Shl(b, i), Shl(b, i) + Pow2(i), i, e)
  }

  lemma {:induction false} AlignedFold<T(!new)>(cfg: Config<T>, f: nat -> T, b: nat, i: nat, e: nat)
    requires cfg.Valid() && Associative(cfg.op) && e < cfg.n && f == Column(cfg, e)
    ensures FoldsAligned(cfg, f, b, i, e)
    decreases i
  {
    if i == 0 {
      SingleFold(cfg, b, e);
    } else {
      AlignedFold(cfg, f, 2 * b, i - 1, e);
      AlignedFold(cfg, f, 2 * b + 1, i - 1, e);
      AlignedStep(cfg, f, b, i - 1, e);
    }
  }

  lemma AlignedStep<T(!new)>(cfg: Config<T>, f: nat -> T, b: nat, i: nat, e: nat)
    requires cfg.Valid() && Associative(cfg.op) && e < cfg.n
    requires FoldsAligned(cfg, f, 2 * b, i, e) && FoldsAligned(cfg, f, 2 * b + 1, i, e)
    ensures FoldsAligned(cfg, f, b, i + 1, e)
  {
    HalvesMeet(b, i);
    JoinHalves(cfg, f, Shl(2 * b, i), Shl(2 * b + 1, i), Shl(2 * b + 1, i) + Pow2(i), i, e);
  }

  lemma HalvesMeet(b: nat, i: nat)
    ensures Flip(Shl(2 * b, i), i) == Shl(2 * b + 1, i) == Shl(2 * b, i) + Pow2(i)
    ensures Shl(b, i + 1) == Shl(2 * b, i) && Pow2(i + 1) == Pow2(i) + Pow2(i)
  {
    Doubling(b, i);
    FlipAligned(b, i);
  }

  lemma SingleFold<T(!new)>(cfg: Config<T>, j: nat, e: nat)
    requires cfg.Valid() && e < cfg.n
    ensures FoldsAligned(cfg, Column(cfg, e), j, 0, e)
  {}

  lemma CompleteFold<T(!new)>(cfg: Config<T>, e: nat)
    requires cfg.Valid() && Associative(cfg.op) && e < cfg.n
    ensures Value(cfg, 0, cfg.k)[e] == RankFold(cfg.op, Column(cfg, e), 0, cfg.p)
  {
    ShlZero(cfg.k);
    AlignedFold(cfg, Column(cfg, e), 0, cfg.k, e);
    assert First(cfg, Pow2(cfg.k)) == cfg.p;
  }

  /** With associativity too, every output is the fold over the ranks in rank order. */
  lemma OutputIsRankFold<T(!new)>(cfg: Config<T>, s: State<T>, x: nat, e: nat)
    requires Reachable(cfg, s) && Shape(cfg, s) && Commutative(cfg.op) && Associative(cfg.op)
    requires x < cfg.p && s.ctl[x].done && e < cfg.n
    ensures |CopyOut(cfg, x, s.net.procs[x])| == cfg.n
    ensures CopyOut(cfg, x, s.net.procs[x])[e] == RankFold(cfg.op, Column(cfg, e), 0, cfg.p)
  {
    OutputValue(cfg, s, x);
    CompleteAgrees(cfg, Relabel(cfg, x), 0);
    CompleteFold(cfg, e);
  }

  lemma {:induction false} ShlZero(i: nat)
    ensures Shl(0, i) == 0
  {
    if i == 0 {
    } else {
      ShlZero(i - 1);
    }
  }

  // ----- hazards -----

  /** The cells that the next call on rank `x` reads or writes. */
  ghost predicate Uses<T>(cfg: Config<T>, s: State<T>, x: nat, cell: Cell)
    requires Shape(cfg, s) && x < cfg.p
  {
    var ctl, notes := s.ctl[x], s.net.procs[x].notes;
    match ctl.stage
    case NotStarted => cell == if IsActive(cfg, x) then Src else FoldSrc
    case InitialStep => IsEven(cfg, x) && FoldDat in notes && (cell == Src || cell == FoldTgt)
    case WaitForData => false
    case WaitForAck => Ack(ctl.iteration) in notes && (cell == Src || cell == Tgt(ctl.iteration))
    case FinalStep => ctl.done && cell == if IsActive(cfg, x) then Src else FoldTgt
  }

  lemma PendingData<T>(cfg: Config<T>, s: State<T>, t: Msg)
    requires Inv(cfg, s) && t in s.net.pending && t.slot.Dat?
    ensures Legitimate(cfg, t) && t.src < cfg.p && IsActive(cfg, t.src)
    ensures 1 + 2 * t.slot.i <= Level(cfg, s, t.src) <= 2 + 2 * t.slot.i
    ensures Ack(t.slot.i) !in s.net.procs[t.src].notes && Level(cfg, s, t.dst) < 2 + 2 * t.slot.i
  {
    NotRaised(cfg, s, t);
    SenderInGroup(cfg, t);
    CopiedData(cfg, s, t, t.slot.i);
    NeighborPairs(cfg, t.dst, t.slot.i);
    var ack := Notify(t.src, Ack(t.slot.i));
    assert Legitimate(cfg, ack) && Balanced(cfg, s, ack);
  }

  lemma PendingFoldIn<T>(cfg: Config<T>, s: State<T>, t: Msg)
    requires Inv(cfg, s) && t in s.net.pending && t.slot.FoldDat? && t.dst < cfg.p && IsEven(cfg, t.dst)
    ensures Legitimate(cfg, t) && t.src < cfg.p && Level(cfg, s, t.src) == 1 && Level(cfg, s, t.dst) == 0
  {
    NotRaised(cfg, s, t);
    assert Legitimate(cfg, FoldOut(t.dst)) && Balanced(cfg, s, FoldOut(t.dst));
  }

  lemma PendingFoldOut<T>(cfg: Config<T>, s: State<T>, t: Msg)
    requires Inv(cfg, s) && t in s.net.pending && t.slot.FoldDat? && t.dst < cfg.p && IsOdd(cfg, t.dst)
    ensures Legitimate(cfg, t) && t.src < cfg.p
    ensures Level(cfg, s, t.src) == 2 * cfg.k + 1 && Level(cfg, s, t.dst) < 2
  {
    NotRaised(cfg, s, t);
    assert Legitimate(cfg, FoldDone(t.dst)) && Balanced(cfg, s, FoldDone(t.dst));
  }

  lemma PendingFold<T>(cfg: Config<T>, s: State<T>, t: Msg)
    requires Inv(cfg, s) && t in s.net.pending && t.slot.FoldDat?
    ensures Legitimate(cfg, t) && t.src < cfg.p
    ensures IsEven(cfg, t.dst) ==> Level(cfg, s, t.src) == 1 && Level(cfg, s, t.dst) == 0
    ensures IsOdd(cfg, t.dst) ==> Level(cfg, s, t.src) == 2 * cfg.k + 1 && Level(cfg, s, t.dst) < 2
  {
    assert Legitimate(cfg, t);
    if IsEven(cfg, t.dst) { PendingFoldIn(cfg, s, t); } else { PendingFoldOut(cfg, s, t); }
  }

  lemma DataDoesNotRace<T>(cfg: Config<T>, s: State<T>, x: nat, cell: Cell, t: Msg)
    requires Inv(cfg, s) && x < cfg.p && Uses(cfg, s, x, cell) && t in s.net.pending && t.slot.Dat?
    ensures !Touches(t, x, cell)
  {
    PendingData(cfg, s, t);
  }

  lemma FoldDoesNotRace<T>(cfg: Config<T>, s: State<T>, x: nat, cell: Cell, t: Msg)
    requires Inv(cfg, s) && x < cfg.p && Uses(cfg, s, x, cell) && t in s.net.pending && t.slot.FoldDat?
    ensures !Touches(t, x, cell)
  {
    NotRaised(cfg, s, t);
    PendingFold(cfg, s, t);
  }

  /** No pending transfer reads or writes a cell that the next call on the rank uses: the ack of
      each iteration is what protects the aliased source memory. */
  lemma CallsDoNotRace<T(!new)>(cfg: Config<T>, s: State<T>, x: nat, cell: Cell, t: Msg)
    requires Reachable(cfg, s) && Shape(cfg, s) && x < cfg.p && Uses(cfg, s, x, cell) && t in s.net.pending
    ensures !Touches(t, x, cell)
  {
    ReachableInv(cfg, s);
    assert Legitimate(cfg, t);
    if t.slot.Dat? {
      DataDoesNotRace(cfg, s, x, cell, t);
    } else if t.slot.FoldDat? {
      FoldDoesNotRace(cfg, s, x, cell, t);
    }
  }

  /** A delivery never overwrites a cell that another pending transfer still has to read or
      write, and never raises a notification that is still raised. */
  lemma DeliveriesDoNotRace<T(!new)>(cfg: Config<T>, s: State<T>, t: Msg, u: Msg)
    requires Reachable(cfg, s) && t in s.net.pending && u in s.net.pending
    ensures Deliverable(s.net, t) && s.net.pending[t] == 1 && t.slot !in s.net.procs[t.dst].notes
    ensures t != u && t.Write? ==> !Touches(u, t.dst, t.into)
  {
    ReachableInv(cfg, s);
    NotRaised(cfg, s, t);
    NotRaised(cfg, s, u);
  }

  // ----- progress -----

  lemma Raised<T>(cfg: Config<T>, s: State<T>, t: Msg)
    requires Counts(cfg, s) && s.net.pending == multiset{} && Legitimate(cfg, t)
    requires Sender(cfg, t) < cfg.p && Level(cfg, s, Sender(cfg, t)) >= SendLevel(cfg, t)
    requires Level(cfg, s, t.dst) < ConsumeLevel(cfg, t)
    ensures t.slot in s.net.procs[t.dst].notes
  {
    assert Balanced(cfg, s, t);
  }

  ghost predicate CanAdvance<T>(cfg: Config<T>, s: State<T>, x: nat)
    requires Shape(cfg, s) && x < cfg.p
  {
    || (Enabled(cfg, s, DoFold(x)) && Step(cfg, s, DoFold(x)) != s)
    || (Enabled(cfg, s, DoMain(x)) && Step(cfg, s, DoMain(x)) != s)
  }

  /** A rank whose polled notification is raised, or that polls none, advances. */
  lemma Advancing<T>(cfg: Config<T>, s: State<T>, x: nat)
    requires Shape(cfg, s) && x < cfg.p && !s.ctl[x].stage.NotStarted? && !s.ctl[x].done
    requires (s.ctl[x].stage.InitialStep? && IsOdd(cfg, x)) || (s.ctl[x].stage.FinalStep? && IsExtra(cfg, x))
             || (if s.ctl[x].stage.InitialStep? then FoldDat else Polls(cfg, x, s.ctl[x])) in s.net.procs[x].notes
    ensures CanAdvance(cfg, s, x)
  {
    var a := if s.ctl[x].stage.InitialStep? && IsEven(cfg, x) then DoFold(x) else DoMain(x);
    assert Local(cfg, s, a).ctl != s.ctl[x];
    assert Step(cfg, s, a).ctl[x] != s.ctl[x];
  }

  /** An active rank before its final step advances if no other active rank is behind it. */
  lemma SlowestAdvances<T>(cfg: Config<T>, s: State<T>, x: nat)
    requires Counts(cfg, s) && s.net.pending == multiset{} && x < cfg.p && IsActive(cfg, x)
    requires forall y :: 0 <= y < cfg.p ==> !s.ctl[y].stage.NotStarted?
    requires Level(cfg, s, x) <= 2 * cfg.k
    requires forall y :: 0 <= y < cfg.p && IsActive(cfg, y) ==> Level(cfg, s, x) <= Level(cfg, s, y)
    ensures CanAdvance(cfg, s, x)
  {
    var i := s.ctl[x].iteration;
    if s.ctl[x].stage.InitialStep? {
      Raised(cfg, s, FoldIn(x + 1));
    } else {
      NeighborPairs(cfg, x, i);
      var y := Neighbor(cfg, x, i);
      Raised(cfg, s, if s.ctl[x].stage.WaitForData? then Write(y, Src, x, Tgt(i), Dat(i)) else Notify(x, Ack(i)));
    }
    Advancing(cfg, s, x);
  }

  lemma FinalOdd<T>(cfg: Config<T>, s: State<T>, y: nat)
    requires Counts(cfg, s) && s.net.pending == multiset{} && y < cfg.p && !s.ctl[y].done
    requires !s.ctl[y].stage.NotStarted? && IsOdd(cfg, y) && Level(cfg, s, y - 1) > 2 * cfg.k
    ensures CanAdvance(cfg, s, y)
  {
    if s.ctl[y].stage.FinalStep? { Raised(cfg, s, FoldOut(y - 1)); }
    Advancing(cfg, s, y);
  }

  lemma FinalEven<T>(cfg: Config<T>, s: State<T>, y: nat)
    requires Counts(cfg, s) && s.net.pending == multiset{} && y < cfg.p && !s.ctl[y].done
    requires !s.ctl[y].stage.NotStarted? && IsEven(cfg, y) && s.ctl[y + 1].done && Level(cfg, s, y) > 2 * cfg.k
    ensures CanAdvance(cfg, s, y)
  {
    Raised(cfg, s, FoldDone(y + 1));
    Advancing(cfg, s, y);
  }

  /** When the doubling is over, a rank that is not done can advance or its fold partner can. */
  lemma FinalAdvances<T>(cfg: Config<T>, s: State<T>, x: nat) returns (y: nat)
    requires Counts(cfg, s) && s.net.pending == multiset{} && x < cfg.p && !s.ctl[x].done
    requires forall y :: 0 <= y < cfg.p ==> !s.ctl[y].stage.NotStarted?
    requires forall y :: 0 <= y < cfg.p && IsActive(cfg, y) ==> Level(cfg, s, y) > 2 * cfg.k
    ensures y < cfg.p && CanAdvance(cfg, s, y)
  {
    y := if IsEven(cfg, x) && !s.ctl[x + 1].done then x + 1 else x;
    if IsOdd(cfg, y) {
      FinalOdd(cfg, s, y);
    } else if IsEven(cfg, y) {
      FinalEven(cfg, s, y);
    } else {
      Advancing(cfg, s, y);
    }
  }

  lemma {:induction false} Slowest<T>(cfg: Config<T>, s: State<T>, n: nat) returns (x: nat)
    requires Shape(cfg, s) && 0 < n <= cfg.p
    ensures x < n && IsActive(cfg, x)
    ensures forall y :: 0 <= y < n && IsActive(cfg, y) ==> Level(cfg, s, x) <= Level(cfg, s, y)
  {
    x := 0;
    if n == 1 {
    } else {
      x := Slowest(cfg, s, n - 1);
      if IsActive(cfg, n - 1) && Level(cfg, s, n - 1) < Level(cfg, s, x) { x := n - 1; }
    }
  }

  /** Deadlock freedom: once all ranks have started, and until all are done, a delivery is
      possible or some rank's triggerProgress makes progress. */
  lemma NoDeadlock<T(!new)>(cfg: Config<T>, s: State<T>)
    requires Reachable(cfg, s) && Shape(cfg, s)
    requires forall y :: 0 <= y < cfg.p ==> !s.ctl[y].stage.NotStarted?
    requires exists y :: 0 <= y < cfg.p && !s.ctl[y].done
    ensures (exists t :: Deliverable(s.net, t)) || (exists y :: 0 <= y < cfg.p && CanAdvance(cfg, s, y))
  {
    ReachableInv(cfg, s);
    if s.net.pending != multiset{} {
      var t :| t in s.net.pending;
      NotRaised(cfg, s, t);
    } else {
      var x := Slowest(cfg, s, cfg.p);
      if Level(cfg, s, x) <= 2 * cfg.k {
        SlowestAdvances(cfg, s, x);
      } else {
        var y :| 0 <= y < cfg.p && !s.ctl[y].done;
        var z := FinalAdvances(cfg, s, y);
      }
    }
  }

  /** Calls a rank has completed productively, out of at most 2k + 3. */
  ghost function Work<T>(cfg: Config<T>, ctl: Control, odd: bool): nat {
    match ctl.stage
    case NotStarted => 0
    case InitialStep => 1 + ctl.iteration
    case WaitForData => 2 + 2 * ctl.iteration
    case WaitForAck => 3 + 2 * ctl.iteration
    case FinalStep => (if odd then 1 + cfg.k else 2 + 2 * cfg.k) + B(ctl.done)
  }

  ghost function WorkLeft<T>(cfg: Config<T>, s: State<T>, n: nat): int
    requires Shape(cfg, s) && n <= cfg.p
  {
    if n == 0 then 0
    else WorkLeft(cfg, s, n - 1) + 2 * cfg.k + 3 - Work(cfg, s.ctl[n - 1], IsOdd(cfg, n - 1))
  }

  ghost function Measure<T>(cfg: Config<T>, s: State<T>): int
    requires Shape(cfg, s)
  {
    2 * WorkLeft(cfg, s, cfg.p) + |s.net.pending|
  }

  lemma {:induction false} WorkLeftStep<T>(cfg: Config<T>, s: State<T>, s': State<T>, x: nat, n: nat)
    requires Shape(cfg, s) && Shape(cfg, s') && x < cfg.p && n <= cfg.p
    requires forall y :: 0 <= y < cfg.p && y != x ==> s'.ctl[y] == s.ctl[y]
    requires Work(cfg, s'.ctl[x], IsOdd(cfg, x)) > Work(cfg, s.ctl[x], IsOdd(cfg, x))
    ensures WorkLeft(cfg, s', n) <= WorkLeft(cfg, s, n) - B(x < n)
  {
    if n == 0 {
    } else {
      WorkLeftStep(cfg, s, s', x, n - 1);
    }
  }

  lemma {:induction false} WorkLeftBound<T>(cfg: Config<T>, s: State<T>, n: nat)
    requires Shape(cfg, s) && n <= cfg.p
    ensures 0 <= WorkLeft(cfg, s, n)
  {
    if n == 0 {
    } else {
      WorkLeftBound(cfg, s, n - 1);
      assert ControlOk(cfg, n - 1, s.ctl[n - 1]);
    }
  }

  /** Every step that changes the state lowers a measure bounded by 0: an execution terminates. */
  lemma MeasureDecreases<T(!new)>(cfg: Config<T>, s: State<T>, a: Action)
    requires Reachable(cfg, s) && Shape(cfg, s) && Enabled(cfg, s, a) && Step(cfg, s, a) != s
    ensures Shape(cfg, Step(cfg, s, a)) && 0 <= Measure(cfg, Step(cfg, s, a)) < Measure(cfg, s)
  {
    ReachableInv(cfg, s);
    StepInv(cfg, s, a);
    var s' := Step(cfg, s, a);
    WorkLeftBound(cfg, s', cfg.p);
    if a.DoDeliver? {
      WorkLeftSame(cfg, s, s', cfg.p);
    } else {
      WorkGrows(cfg, s, a);
      WorkLeftStep(cfg, s, s', a.x, cfg.p);
    }
  }

  lemma {:induction false} WorkLeftSame<T>(cfg: Config<T>, s: State<T>, s': State<T>, n: nat)
    requires Shape(cfg, s) && Shape(cfg, s') && n <= cfg.p && s'.ctl == s.ctl
    ensures WorkLeft(cfg, s', n) == WorkLeft(cfg, s, n)
  {
    if n == 0 {
    } else {
      WorkLeftSame(cfg, s, s', n - 1);
    }
  }

  lemma WorkGrows<T>(cfg: Config<T>, s: State<T>, a: Action)
    requires Shape(cfg, s) && Enabled(cfg, s, a) && !a.DoDeliver? && Step(cfg, s, a) != s
    ensures Work(cfg, Step(cfg, s, a).ctl[a.x], IsOdd(cfg, a.x)) > Work(cfg, s.ctl[a.x], IsOdd(cfg, a.x))
    ensures |Step(cfg, s, a).net.pending| <= |s.net.pending| + 1
  {
    IdleStep(cfg, s, a);
  }

  lemma IdleStep<T>(cfg: Config<T>, s: State<T>, a: Action)
    requires Shape(cfg, s) && Enabled(cfg, s, a) && !a.DoDeliver?
    ensures Local(cfg, s, a) == Outcome(s.ctl[a.x], s.net.procs[a.x], []) ==> Step(cfg, s, a) == s
  {
    assert s.net.pending + multiset([]) == s.net.pending;
  }
}
