/** Ring allgatherv: every rank forwards what it receives from its left neighbour to its right one,
    straight out of the receive buffer.  The machine runs one execution of all ranks over the
    transport in any interleaving. */
module RingAllgatherv {
  import opened RingIndex
  import opened Transport

  /** `Own` is the first source buffer; source buffer i > 0 is a copy of target buffer i - 1. */
  datatype Cell = Own | Tgt(i: nat)

  /** `Dat(i)`: arrival in target i; `Ack(i)`: ack at source i. */
  datatype Slot = Dat(i: nat) | Ack(i: nat)

  type Msg = Transfer<Cell, Slot>
  type Proc<T> = Process<Cell, Slot, seq<T>>

  datatype Control = Control(started: bool, step: nat, done: bool)

  /** `p` ranks; rank `r` contributes counts[r] elements, possibly none. */
  datatype Config<!T> = Config(p: nat, counts: seq<nat>, input: nat -> seq<T>) {
    ghost predicate Valid() {
      && 2 <= p == |counts|
      && forall r {:trigger input(r)} :: 0 <= r < p ==> |input(r)| == counts[r]
    }
  }

  function SourceCell(i: nat): Cell {
    if i == 0 then Own else Tgt(i - 1)
  }

  /** The rank whose elements source buffer `i` of rank `r` holds, and target buffer `i`. */
  function SourceOrigin(p: nat, r: nat, i: nat): (c: nat)
    requires r < p && i < p
    ensures c < p
  {
    Back(p, r, i)
  }

  function TargetOrigin(p: nat, r: nat, i: nat): (c: nat)
    requires r < p && i < p - 1
    ensures c < p
  {
    Back(p, r, i + 1)
  }

  /** The two ends of every connection have the same size, because they hold the same rank's elements. */
  lemma SizesMatch(p: nat, r: nat, i: nat)
    requires r < p && i < p - 1
    ensures SourceOrigin(p, r, i) == TargetOrigin(p, Next(p, r), i)
    ensures i + 1 < p - 1 ==> SourceOrigin(p, r, i + 1) == TargetOrigin(p, r, i)
  {}

  ghost predicate Allocated<T>(cfg: Config<T>, r: nat, proc: Proc<T>)
    requires cfg.Valid() && r < cfg.p
  {
    && Own in proc.mem && |proc.mem[Own]| == cfg.counts[r]
    && forall i :: 0 <= i < cfg.p - 1 ==>
                     Tgt(i) in proc.mem && |proc.mem[Tgt(i)]| == cfg.counts[TargetOrigin(cfg.p, r, i)]
  }

  ghost predicate ControlOk<T>(cfg: Config<T>, ctl: Control)
    requires cfg.Valid()
  {
    && ctl.step <= cfg.p - 1
    && (!ctl.started ==> ctl.step == 0 && !ctl.done)
    && (ctl.done ==> ctl.step == cfg.p - 1)
  }

  datatype Outcome<T> = Outcome(ctl: Control, proc: Proc<T>, posts: seq<Msg>)

  /** The transfer from source buffer `i`; a transfer of size zero is a bare notification. */
  ghost function Send<T>(cfg: Config<T>, r: nat, i: nat): Msg
    requires cfg.Valid() && r < cfg.p && i < cfg.p - 1
  {
    var next := Next(cfg.p, r);
    if cfg.counts[SourceOrigin(cfg.p, r, i)] == 0 then Notify(next, Dat(i))
    else Write(r, SourceCell(i), next, Tgt(i), Dat(i))
  }

  ghost function SendAck<T>(cfg: Config<T>, r: nat): Msg
    requires cfg.Valid() && r < cfg.p
  {
    Notify(Prev(cfg.p, r), Ack(cfg.p - 2))
  }

  ghost function Start<T>(cfg: Config<T>, r: nat, proc: Proc<T>): Outcome<T>
    requires cfg.Valid() && r < cfg.p
  {
    Outcome(Control(true, 0, false), proc, [Send(cfg, r, 0)])
  }

  ghost function Trigger<T>(cfg: Config<T>, r: nat, ctl: Control, proc: Proc<T>): Outcome<T>
    requires cfg.Valid() && r < cfg.p && ControlOk(cfg, ctl) && ctl.started && !ctl.done
  {
    var i := ctl.step;
    if i == cfg.p - 1 then
      if Ack(i - 1) in proc.notes then Outcome(ctl.(done := true), proc.(notes := proc.notes - {Ack(i - 1)}), [])
      else Outcome(ctl, proc, [])
    else if Dat(i) !in proc.notes then Outcome(ctl, proc, [])
    else
      Outcome(ctl.(step := i + 1), proc.(notes := proc.notes - {Dat(i)}),
              [if i + 1 == cfg.p - 1 then SendAck(cfg, r) else Send(cfg, r, i + 1)])
  }

  /** The buffer that holds the elements of rank `c`. */
  function Holder(p: nat, r: nat, c: nat): Cell
    requires r < p && c < p
  {
    if c == r then Own else Tgt(Dist(p, r, c) - 1)
  }

  /** The first `n` pieces of the output. */
  ghost function CopyOut<T>(cfg: Config<T>, r: nat, proc: Proc<T>, n: nat): seq<T>
    requires cfg.Valid() && r < cfg.p && Allocated(cfg, r, proc) && n <= cfg.p
  {
    if n == 0 then [] else CopyOut(cfg, r, proc, n - 1) + proc.mem[Holder(cfg.p, r, n - 1)]
  }

  // ----- all ranks -----

  datatype State<T> = State(net: Net<Cell, Slot, seq<T>>, ctl: seq<Control>)

  datatype Action = DoStart(r: nat) | DoTrigger(r: nat) | DoDeliver(t: Msg)

  ghost predicate Shape<T>(cfg: Config<T>, s: State<T>) {
    && cfg.Valid()
    && |s.net.procs| == |s.ctl| == cfg.p
    && forall r :: 0 <= r < cfg.p ==> Allocated(cfg, r, s.net.procs[r]) && ControlOk(cfg, s.ctl[r])
  }

  ghost predicate Enabled<T>(cfg: Config<T>, s: State<T>, a: Action)
    requires Shape(cfg, s)
  {
    match a
    case DoStart(r) => r < cfg.p && !s.ctl[r].started
    case DoTrigger(r) => r < cfg.p && s.ctl[r].started && !s.ctl[r].done
    case DoDeliver(t) => Deliverable(s.net, t)
  }

  ghost function Local<T>(cfg: Config<T>, s: State<T>, a: Action): Outcome<T>
    requires Shape(cfg, s) && Enabled(cfg, s, a) && !a.DoDeliver?
  {
    if a.DoStart? then Start(cfg, a.r, s.net.procs[a.r]) else Trigger(cfg, a.r, s.ctl[a.r], s.net.procs[a.r])
  }

  ghost function Step<T>(cfg: Config<T>, s: State<T>, a: Action): State<T>
    requires Shape(cfg, s) && Enabled(cfg, s, a)
  {
    if a.DoDeliver? then s.(net := Deliver(s.net, a.t))
    else
      var o := Local(cfg, s, a);
      State(Act(s.net, a.r, o.proc, o.posts), s.ctl[a.r := o.ctl])
  }

  /** Inputs copied in, nothing started; the target buffers hold anything. */
  ghost predicate Init<T>(cfg: Config<T>, s: State<T>) {
    && Shape(cfg, s)
    && s.net.pending == multiset{}
    && forall r :: 0 <= r < cfg.p ==>
                     && s.net.procs[r].notes == {} && s.ctl[r] == Control(false, 0, false)
                     && s.net.procs[r].mem[Own] == cfg.input(r)
  }

  ghost predicate Transition<T>(cfg: Config<T>, s: State<T>, s': State<T>) {
    Shape(cfg, s) && exists a :: Enabled(cfg, s, a) && s' == Step(cfg, s, a)
  }

  ghost predicate IsRun<T>(cfg: Config<T>, run: seq<State<T>>) {
    && 0 < |run|
    && Init(cfg, run[0])
    && forall i :: 0 <= i < |run| - 1 ==> Transition(cfg, run[i], run[i + 1])
  }

  ghost predicate Reachable<T(!new)>(cfg: Config<T>, s: State<T>) {
    exists run :: IsRun(cfg, run) && run[|run| - 1] == s
  }
}
