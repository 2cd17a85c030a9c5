/** Ring allreduce: what each call does to one rank's own state, and the machine in which any
    number of ranks run any number of executions over the transport, in any interleaving. */
module RingAllreduce {
  import opened RingIndex
  import opened Reduction
  import opened Transport

  /** The chunk buffers of a rank.  The gather-phase source and target buffers are copies of the
      reduce-phase source endpoints: same memory (`Src`), notifications of their own. */
  datatype Cell = Src(c: nat) | Tgt(c: nat)

  /** `Red`/`Gat`: arrival in the reduce/gather target; `Ack`: ack of the gather source. */
  datatype Slot = Red(c: nat) | Gat(c: nat) | Ack(c: nat)

  type Msg = Transfer<Cell, Slot>
  type Proc<T> = Process<Cell, Slot, seq<T>>

  datatype Phase = Initialized | Ready | Running | Finished

  datatype Control = Control(phase: Phase, step: nat, index: nat)

  /** `p` ranks reduce `n` elements with `op` in chunks of `pad`; `input(r, k)` is what rank `r`
      supplies to its `k`-th execution. */
  datatype Config<!T> = Config(p: nat, n: nat, pad: nat, op: (T, T) -> T, input: (nat, nat) -> seq<T>) {
    ghost predicate Valid() {
      && 2 <= p
      && 0 < n
      && forall r, k {:trigger input(r, k)} :: |input(r, k)| == n
    }
  }

  // ----- chunks -----

  /** Elements copied by the copy loops before they reach chunk `c`. */
  function Offset<T>(cfg: Config<T>, c: nat): (o: nat)
    ensures o <= cfg.n
  {
    if c == 0 then 0
    else
      var before := Offset(cfg, c - 1);
      if before + cfg.pad > cfg.n then cfg.n else before + cfg.pad
  }

  function Live<T>(cfg: Config<T>, c: nat): (len: nat)
    ensures len <= cfg.pad && Offset(cfg, c) + len == Offset(cfg, c + 1) <= cfg.n
  {
    Offset(cfg, c + 1) - Offset(cfg, c)
  }

  function Chunk<T>(cfg: Config<T>, x: seq<T>, c: nat): (s: seq<T>)
    requires |x| == cfg.n
    ensures |s| == Live(cfg, c)
  {
    var len := Live(cfg, c);
    x[Offset(cfg, c)..Offset(cfg, c) + len]
  }

  // ----- one rank -----

  ghost predicate Allocated<T>(cfg: Config<T>, proc: Proc<T>)
  {
    forall c :: 0 <= c < cfg.p ==>
                  && Src(c) in proc.mem && |proc.mem[Src(c)]| == cfg.pad
                  && Tgt(c) in proc.mem && |proc.mem[Tgt(c)]| == cfg.pad
  }

  ghost predicate ControlOk<T>(cfg: Config<T>, r: nat, ctl: Control)
    requires cfg.Valid()
  {
    && r < cfg.p
    && ctl.index < cfg.p
    && (ctl.phase.Running? ==> ctl.step <= 2 * (cfg.p - 1) && ctl.index == Back(cfg.p, r, ctl.step + 1))
  }

  datatype Outcome<T> = Outcome(ctl: Control, proc: Proc<T>, posts: seq<Msg>, done: bool)

  ghost function CopyIn<T>(cfg: Config<T>, proc: Proc<T>, x: seq<T>): Proc<T>
    requires cfg.Valid() && Allocated(cfg, proc) && |x| == cfg.n
  {
    proc.(mem := map cell | cell in proc.mem ::
      if cell.Src? && cell.c < cfg.p then Chunk(cfg, x, cell.c) + proc.mem[cell][Live(cfg, cell.c)..]
      else proc.mem[cell])
  }

  ghost function CopyOut<T>(cfg: Config<T>, proc: Proc<T>, upTo: nat): (out: seq<T>)
    requires cfg.Valid() && Allocated(cfg, proc) && upTo <= cfg.p
    ensures |out| == Offset(cfg, upTo)
  {
    if upTo == 0 then []
    else
      CopyOut(cfg, proc, upTo - 1) + proc.mem[Src(upTo - 1)][..Live(cfg, upTo - 1)]
  }

  /** The reduce transfer of chunk `c` from `r` to its right neighbour. */
  function ReduceWrite(p: nat, r: nat, c: nat): Msg
    requires r < p
  {
    Write(r, Src(c), Next(p, r), Tgt(c), Red(c))
  }

  /** The in-place gather transfer of chunk `c`. */
  function GatherWrite(p: nat, r: nat, c: nat): Msg
    requires r < p
  {
    Write(r, Src(c), Next(p, r), Src(c), Gat(c))
  }

  function GatherAck(p: nat, r: nat, c: nat): Msg
    requires r < p
  {
    Notify(Prev(p, r), Ack(c))
  }

  ghost function Start<T>(cfg: Config<T>, r: nat, ctl: Control, proc: Proc<T>): Outcome<T>
    requires cfg.Valid() && r < cfg.p
  {
    Outcome(Control(Running, 0, Prev(cfg.p, r)), proc, [ReduceWrite(cfg.p, r, r)], false)
  }

  /** One call of triggerProgress on a running collective. */
  ghost function Trigger<T>(cfg: Config<T>, r: nat, ctl: Control, proc: Proc<T>): Outcome<T>
    requires cfg.Valid() && ControlOk(cfg, r, ctl) && Allocated(cfg, proc) && ctl.phase.Running?
  {
    var p, c := cfg.p, ctl.index;
    var advanced := Control(Running, ctl.step + 1, Prev(p, c));
    if ctl.step == 2 * (p - 1) then
      var slot := Ack(Next(p, Next(p, c)));
      if slot in proc.notes then
        Outcome(ctl.(phase := Finished), proc.(notes := proc.notes - {slot}), [], true)
      else Outcome(ctl, proc, [], false)
    else if ctl.step < p - 1 then
      if Red(c) in proc.notes then
        var reduced := proc.mem[Src(c) := Zip(cfg.op, proc.mem[Src(c)], proc.mem[Tgt(c)])];
        var post := if ctl.step != p - 2 then ReduceWrite(p, r, c) else GatherWrite(p, r, c);
        Outcome(advanced, Process(reduced, proc.notes - {Red(c)}), [post], false)
      else Outcome(ctl, proc, [], false)
    else
      if Gat(c) in proc.notes then
        var post := if ctl.step != 2 * (p - 1) - 1 then GatherWrite(p, r, c) else GatherAck(p, r, c);
        Outcome(advanced, proc.(notes := proc.notes - {Gat(c)}), [post], false)
      else Outcome(ctl, proc, [], false)
  }

  // ----- all ranks -----

  /** `rounds[r]` counts the executions rank `r` has finished, `outs[r]` its outputs. */
  datatype State<T> = State(net: Net<Cell, Slot, seq<T>>, ctl: seq<Control>, rounds: seq<nat>, outs: seq<seq<seq<T>>>)

  datatype Action = DoCopyIn(r: nat) | DoStart(r: nat) | DoTrigger(r: nat) | DoCopyOut(r: nat) | DoDeliver(t: Msg)

  ghost predicate Shape<T>(cfg: Config<T>, s: State<T>) {
    && cfg.Valid()
    && |s.net.procs| == |s.ctl| == |s.rounds| == |s.outs| == cfg.p
    && (forall r :: 0 <= r < cfg.p ==> Allocated(cfg, s.net.procs[r]) && ControlOk(cfg, r, s.ctl[r]))
  }

  ghost predicate Enabled<T>(cfg: Config<T>, s: State<T>, a: Action)
    requires Shape(cfg, s)
  {
    match a
    case DoCopyIn(r) => r < cfg.p && s.ctl[r].phase.Initialized?
    case DoStart(r) => r < cfg.p && s.ctl[r].phase.Ready?
    case DoTrigger(r) => r < cfg.p && s.ctl[r].phase.Running?
    case DoCopyOut(r) => r < cfg.p && s.ctl[r].phase.Finished?
    case DoDeliver(t) => Deliverable(s.net, t)
  }

  ghost function Apply<T>(s: State<T>, r: nat, o: Outcome<T>): State<T>
    requires r < |s.ctl| == |s.net.procs| == |s.rounds|
  {
    s.(net := Act(s.net, r, o.proc, o.posts), ctl := s.ctl[r := o.ctl],
       rounds := s.rounds[r := s.rounds[r] + if o.done then 1 else 0])
  }

  ghost function Step<T>(cfg: Config<T>, s: State<T>, a: Action): State<T>
    requires Shape(cfg, s) && Enabled(cfg, s, a)
  {
    match a
    case DoCopyIn(r) =>
      var proc := CopyIn(cfg, s.net.procs[r], cfg.input(r, s.rounds[r]));
      s.(net := Act(s.net, r, proc, []), ctl := s.ctl[r := s.ctl[r].(phase := Ready)])
    case DoStart(r) => Apply(s, r, Start(cfg, r, s.ctl[r], s.net.procs[r]))
    case DoTrigger(r) => Apply(s, r, Trigger(cfg, r, s.ctl[r], s.net.procs[r]))
    case DoCopyOut(r) =>
      s.(ctl := s.ctl[r := s.ctl[r].(phase := Initialized)],
         outs := s.outs[r := s.outs[r] + [CopyOut(cfg, s.net.procs[r], cfg.p)]])
    case DoDeliver(t) => s.(net := Deliver(s.net, t))
  }

  /** Freshly set up ranks; the contents of the buffers are arbitrary. */
  ghost predicate Init<T>(cfg: Config<T>, s: State<T>) {
    && Shape(cfg, s)
    && s.net.pending == multiset{}
    && forall r :: 0 <= r < cfg.p ==>
                     && s.net.procs[r].notes == {}
                     && s.ctl[r].phase.Initialized? && s.rounds[r] == 0 && s.outs[r] == []
  }

  ghost predicate Transition<T>(cfg: Config<T>, s: State<T>, s': State<T>) {
    Shape(cfg, s) && exists a :: Enabled(cfg, s, a) && s' == Step(cfg, s, a)
  }

  ghost predicate IsRun<T>(cfg: Config<T>, run: seq<State<T>>) {
    && 0 < |run|
    && Init(cfg, run[0])
    && forall i :: 0 <= i < |run| - 1 ==> Transition(cfg, run[i], run[i + 1])
  }

  ghost predicate Reachable<T(!new)>(cfg: Config<T>, s: State<T>) {
    exists run :: IsRun(cfg, run) && run[|run| - 1] == s
  }
}
