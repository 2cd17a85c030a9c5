/** Recursive-doubling allreduce: the schedule, what each call does to one rank's own state, and
    the machine in which all ranks run one execution over the transport in any interleaving.

    Ranks below 2 * rest come in pairs: the odd one folds its input into the even one before the
    doubling and gets the result back after it.  The others are extra ranks. */
module RecursiveDoubling {
  import opened Bits
  import opened Reduction
  import opened Transport

  /** `Src` is the memory shared by all source endpoints of an active rank, `FoldSrc` the source
      of a folded-out rank; `Tgt(i)`, `FoldTgt` are the targets. */
  datatype Cell = Src | Tgt(i: nat) | FoldSrc | FoldTgt

  /** `Dat`, `FoldDat`: arrival in a target; `Ack`, `FoldAck`: ack at a source. */
  datatype Slot = Dat(i: nat) | Ack(i: nat) | FoldDat | FoldAck

  type Msg = Transfer<Cell, Slot>
  type Proc<T> = Process<Cell, Slot, seq<T>>

  datatype Stage = NotStarted | InitialStep | WaitForData | WaitForAck | FinalStep

  datatype Control = Control(stage: Stage, iteration: nat, done: bool)

  /** `p` ranks, of which 2^k take part in the doubling, reduce vectors of `n` elements. */
  datatype Config<!T> = Config(p: nat, k: nat, n: nat, op: (T, T) -> T, input: nat -> seq<T>) {
    ghost predicate Valid() {
      && 2 <= p && 1 <= k && Pow2(k) <= p < 2 * Pow2(k)
      && 0 < n
      && forall r {:trigger input(r)} :: |input(r)| == n
    }

    function Rest(): nat
      requires Pow2(k) <= p
    {
      p - Pow2(k)
    }
  }

  // ----- the schedule -----

  ghost predicate IsExtra<T>(cfg: Config<T>, x: nat)
    requires cfg.Valid()
  {
    x >= 2 * cfg.Rest()
  }

  ghost predicate IsEven<T>(cfg: Config<T>, x: nat)
    requires cfg.Valid()
  {
    x % 2 == 0 && !IsExtra(cfg, x)
  }

  ghost predicate IsOdd<T>(cfg: Config<T>, x: nat)
    requires cfg.Valid()
  {
    x % 2 == 1 && !IsExtra(cfg, x)
  }

  ghost predicate IsActive<T>(cfg: Config<T>, x: nat)
    requires cfg.Valid()
  {
    IsEven(cfg, x) || IsExtra(cfg, x)
  }

  function RelabelRank(rest: nat, x: nat): nat {
    if x < 2 * rest then x / 2 else x - rest
  }

  function UnlabelRank(rest: nat, j: nat): nat {
    if j < rest then 2 * j else j + rest
  }

  ghost function Relabel<T>(cfg: Config<T>, x: nat): nat
    requires cfg.Valid()
  {
    RelabelRank(cfg.Rest(), x)
  }

  ghost function Unlabel<T>(cfg: Config<T>, j: nat): nat
    requires cfg.Valid()
  {
    UnlabelRank(cfg.Rest(), j)
  }

  ghost function Neighbor<T>(cfg: Config<T>, x: nat, i: nat): nat
    requires cfg.Valid()
  {
    Unlabel(cfg, Flip(Relabel(cfg, x), i))
  }

  /** Relabelling is a bijection from the active ranks onto [0, 2^k). */
  lemma RelabelBijection<T>(cfg: Config<T>, x: nat, j: nat)
    requires cfg.Valid()
    ensures IsActive(cfg, x) && x < cfg.p ==> Relabel(cfg, x) < Pow2(cfg.k) && Unlabel(cfg, Relabel(cfg, x)) == x
    ensures j < Pow2(cfg.k) ==>
              Unlabel(cfg, j) < cfg.p && IsActive(cfg, Unlabel(cfg, j)) && Relabel(cfg, Unlabel(cfg, j)) == j
  {}

  /** At every iteration the neighbours form pairs of distinct active ranks. */
  lemma NeighborPairs<T>(cfg: Config<T>, x: nat, i: nat)
    requires cfg.Valid() && x < cfg.p && IsActive(cfg, x) && i < cfg.k
    ensures var y := Neighbor(cfg, x, i);
            && y < cfg.p && IsActive(cfg, y) && y != x && Neighbor(cfg, y, i) == x
            && Relabel(cfg, y) == Flip(Relabel(cfg, x), i)
  {
    var j := Relabel(cfg, x);
    RelabelBijection(cfg, x, Flip(j, i));
    FlipBound(j, i, cfg.k);
    FlipInvolution(j, i);
  }

  // ----- one rank -----

  ghost predicate Holds<T>(cfg: Config<T>, proc: Proc<T>, cell: Cell) {
    cell in proc.mem && |proc.mem[cell]| == cfg.n
  }

  ghost predicate Allocated<T>(cfg: Config<T>, x: nat, proc: Proc<T>)
    requires cfg.Valid()
  {
    && (IsActive(cfg, x) ==> Holds(cfg, proc, Src) && forall i :: 0 <= i < cfg.k ==> Holds(cfg, proc, Tgt(i)))
    && (!IsExtra(cfg, x) ==> Holds(cfg, proc, FoldTgt))
    && (IsOdd(cfg, x) ==> Holds(cfg, proc, FoldSrc))
  }

  ghost predicate ControlOk<T>(cfg: Config<T>, x: nat, ctl: Control)
    requires cfg.Valid()
  {
    && x < cfg.p
    && (ctl.done ==> ctl.stage.FinalStep?)
    && match ctl.stage
       case NotStarted => true
       case InitialStep => !IsExtra(cfg, x) && ctl.iteration < cfg.k && (IsEven(cfg, x) ==> ctl.iteration == 0)
       case WaitForData => IsActive(cfg, x) && ctl.iteration < cfg.k
       case WaitForAck => IsActive(cfg, x) && ctl.iteration < cfg.k
       case FinalStep => ctl.iteration == cfg.k
  }

  datatype Outcome<T> = Outcome(ctl: Control, proc: Proc<T>, posts: seq<Msg>)

  /** The transfers, named by sender. */
  ghost function SendData<T>(cfg: Config<T>, x: nat, i: nat): Msg
    requires cfg.Valid()
  {
    Write(x, Src, Neighbor(cfg, x, i), Tgt(i), Dat(i))
  }

  ghost function SendAck<T>(cfg: Config<T>, x: nat, i: nat): Msg
    requires cfg.Valid()
  {
    Notify(Neighbor(cfg, x, i), Ack(i))
  }

  /** The odd rank's input, sent to its even partner; the result, sent back; the final ack. */
  function FoldIn(x: nat): Msg
    requires 1 <= x
  {
    Write(x, FoldSrc, x - 1, FoldTgt, FoldDat)
  }

  function FoldOut(x: nat): Msg {
    Write(x, Src, x + 1, FoldTgt, FoldDat)
  }

  function FoldDone(x: nat): Msg
    requires 1 <= x
  {
    Notify(x - 1, FoldAck)
  }

  ghost function CopyIn<T>(cfg: Config<T>, x: nat, proc: Proc<T>, v: seq<T>): Proc<T>
    requires cfg.Valid()
  {
    proc.(mem := proc.mem[if IsActive(cfg, x) then Src else FoldSrc := v])
  }

  ghost function CopyOut<T>(cfg: Config<T>, x: nat, proc: Proc<T>): seq<T>
    requires cfg.Valid() && Allocated(cfg, x, proc)
  {
    if IsActive(cfg, x) then proc.mem[Src] else proc.mem[FoldTgt]
  }

  ghost function Start<T>(cfg: Config<T>, x: nat, proc: Proc<T>): Outcome<T>
    requires cfg.Valid()
  {
    if IsExtra(cfg, x) then Outcome(Control(WaitForData, 0, false), proc, [SendData(cfg, x, 0)])
    else Outcome(Control(InitialStep, 0, false), proc, if IsOdd(cfg, x) then [FoldIn(x)] else [])
  }

  /** The first part of triggerProgress, for an even rank in its initial step. */
  ghost function TriggerFold<T>(cfg: Config<T>, x: nat, ctl: Control, proc: Proc<T>): Outcome<T>
    requires cfg.Valid() && Allocated(cfg, x, proc) && IsEven(cfg, x)
  {
    if FoldDat !in proc.notes then Outcome(ctl, proc, [])
    else
      Outcome(Control(WaitForData, ctl.iteration, false),
              Process(proc.mem[Src := Zip(cfg.op, proc.mem[Src], proc.mem[FoldTgt])], proc.notes - {FoldDat}),
              [SendData(cfg, x, ctl.iteration)])
  }

  /** The rest of triggerProgress. */
  ghost function TriggerMain<T>(cfg: Config<T>, x: nat, ctl: Control, proc: Proc<T>): Outcome<T>
    requires cfg.Valid() && Allocated(cfg, x, proc) && ControlOk(cfg, x, ctl)
    requires !ctl.stage.NotStarted? && (ctl.stage.InitialStep? ==> IsOdd(cfg, x))
  {
    var i := ctl.iteration;
    match ctl.stage
    case FinalStep =>
      if IsEven(cfg, x) then
        if FoldAck in proc.notes then Outcome(ctl.(done := true), proc.(notes := proc.notes - {FoldAck}), [])
        else Outcome(ctl, proc, [])
      else if IsOdd(cfg, x) then
        if FoldDat in proc.notes then
          Outcome(ctl.(done := true), proc.(notes := proc.notes - {FoldDat}), [FoldDone(x)])
        else Outcome(ctl, proc, [])
      else Outcome(ctl.(done := true), proc, [])
    case WaitForData =>
      if Dat(i) in proc.notes then
        Outcome(ctl.(stage := WaitForAck), proc.(notes := proc.notes - {Dat(i)}), [SendAck(cfg, x, i)])
      else Outcome(ctl, proc, [])
    case WaitForAck =>
      if Ack(i) !in proc.notes then Outcome(ctl, proc, [])
      else
        var reduced := Process(proc.mem[Src := Zip(cfg.op, proc.mem[Src], proc.mem[Tgt(i)])], proc.notes - {Ack(i)});
        if i != cfg.k - 1 then Outcome(Control(WaitForData, i + 1, false), reduced, [SendData(cfg, x, i + 1)])
        else Outcome(Control(FinalStep, i + 1, false), reduced, if IsEven(cfg, x) then [FoldOut(x)] else [])
    case InitialStep => Outcome(Control(if i == cfg.k - 1 then FinalStep else InitialStep, i + 1, false), proc, [])
  }

  // ----- all ranks -----

  datatype State<T> = State(net: Net<Cell, Slot, seq<T>>, ctl: seq<Control>)

  datatype Action = DoStart(x: nat) | DoFold(x: nat) | DoMain(x: nat) | DoDeliver(t: Msg)

  ghost predicate Shape<T>(cfg: Config<T>, s: State<T>) {
    && cfg.Valid()
    && |s.net.procs| == |s.ctl| == cfg.p
    && forall x :: 0 <= x < cfg.p ==> Allocated(cfg, x, s.net.procs[x]) && ControlOk(cfg, x, s.ctl[x])
  }

  /** A call of triggerProgress is DoFold, then DoMain if the rank has left its initial step;
      deliveries may come between the two. */
  ghost predicate Enabled<T>(cfg: Config<T>, s: State<T>, a: Action)
    requires Shape(cfg, s)
  {
    match a
    case DoStart(x) => x < cfg.p && s.ctl[x].stage.NotStarted?
    case DoFold(x) => x < cfg.p && IsEven(cfg, x) && s.ctl[x].stage.InitialStep?
    case DoMain(x) =>
      && x < cfg.p && !s.ctl[x].stage.NotStarted? && !s.ctl[x].done
      && (s.ctl[x].stage.InitialStep? ==> IsOdd(cfg, x))
    case DoDeliver(t) => Deliverable(s.net, t)
  }

  ghost function Local<T>(cfg: Config<T>, s: State<T>, a: Action): Outcome<T>
    requires Shape(cfg, s) && Enabled(cfg, s, a) && !a.DoDeliver?
  {
    match a
    case DoStart(x) => Start(cfg, x, s.net.procs[x])
    case DoFold(x) => TriggerFold(cfg, x, s.ctl[x], s.net.procs[x])
    case DoMain(x) => TriggerMain(cfg, x, s.ctl[x], s.net.procs[x])
  }

  ghost function Step<T>(cfg: Config<T>, s: State<T>, a: Action): State<T>
    requires Shape(cfg, s) && Enabled(cfg, s, a)
  {
    if a.DoDeliver? then s.(net := Deliver(s.net, a.t))
    else
      var o := Local(cfg, s, a);
      State(Act(s.net, a.x, o.proc, o.posts), s.ctl[a.x := o.ctl])
  }

  /** Inputs copied in, nothing started; the other buffers hold anything. */
  ghost predicate Init<T>(cfg: Config<T>, s: State<T>) {
    && Shape(cfg, s)
    && s.net.pending == multiset{}
    && forall x :: 0 <= x < cfg.p ==>
                     && s.net.procs[x].notes == {}
                     && s.ctl[x] == Control(NotStarted, 0, false)
                     && CopyIn(cfg, x, s.net.procs[x], cfg.input(x)) == s.net.procs[x]
  }

  ghost predicate Transition<T>(cfg: Config<T>, s: State<T>, s': State<T>) {
    Shape(cfg, s) && exists a :: Enabled(cfg, s, a) && s' == Step(cfg, s, a)
  }

  ghost predicate IsRun<T>(cfg: Config<T>, run: seq<State<T>>) {
    && 0 < |run|
    && Init(cfg, run[0])
    && forall i :: 0 <= i < |run| - 1 ==> Transition(cfg, run[i], run[i + 1])
  }

  ghost predicate Reachable<T(!new)>(cfg: Config<T>, s: State<T>) {
    exists run :: IsRun(cfg, run) && run[|run| - 1] == s
  }
}
