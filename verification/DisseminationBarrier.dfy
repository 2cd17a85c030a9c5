/** The dissemination barrier of Hensgen, Finkel and Manber: the machine in which all ranks call
    execute any number of times, in any interleaving, over the transport.

    In step i a rank signals the rank 2^i ahead of it and waits for the rank 2^i behind it, then
    acks that signal and waits for the ack of its own.  The buffers have size zero, so every
    transfer is a bare notification. */
module DisseminationBarrier {
  import opened Bits
  import opened RingIndex
  import opened Transport

  datatype Cell = NoCell

  /** `Dat(i)` arrives at the target buffer of step i, `Ack(i)` at its source buffer. */
  datatype Slot = Dat(i: nat) | Ack(i: nat)

  type Msg = Transfer<Cell, Slot>
  type Proc = Process<Cell, Slot, ()>

  datatype Config = Config(p: nat, steps: nat) {
    ghost predicate Valid() {
      1 <= p && steps == CeilLog2(p)
    }
  }

  /** What a rank inside execute does next in its current step. */
  datatype Phase = InitTransfer | WaitData | AckData | WaitAck

  /** `episodes` counts the executes a rank has returned from. */
  datatype Control = Control(episodes: nat, inside: bool, step: nat, phase: Phase)

  ghost predicate ControlOk(cfg: Config, ctl: Control) {
    && (ctl.inside ==> ctl.step < cfg.steps || (ctl.step == cfg.steps && ctl.phase.InitTransfer?))
    && (!ctl.inside ==> ctl.step == 0 && ctl.phase.InitTransfer?)
  }

  lemma HopBound(cfg: Config, i: nat)
    requires cfg.Valid() && i < cfg.steps
    ensures Pow2(i) < cfg.p
  {
    Pow2Monotonic(i, cfg.steps - 1);
  }

  ghost function Target(cfg: Config, r: nat, i: nat): (y: nat)
    requires cfg.Valid() && r < cfg.p && i < cfg.steps
    ensures y < cfg.p
  {
    HopBound(cfg, i);
    Forth(cfg.p, r, Pow2(i))
  }

  ghost function Source(cfg: Config, r: nat, i: nat): (y: nat)
    requires cfg.Valid() && r < cfg.p && i < cfg.steps
    ensures y < cfg.p
  {
    HopBound(cfg, i);
    Back(cfg.p, r, Pow2(i))
  }

  /** At every step targets and sources are inverse permutations of the ranks, and no rank
      signals itself. */
  lemma PartnersInverse(cfg: Config, r: nat, i: nat)
    requires cfg.Valid() && r < cfg.p && i < cfg.steps
    ensures Source(cfg, Target(cfg, r, i), i) == r && Target(cfg, Source(cfg, r, i), i) == r
    ensures Target(cfg, r, i) != r && Source(cfg, r, i) != r
  {
    HopBound(cfg, i);
  }

  datatype Outcome = Outcome(ctl: Control, notes: set<Slot>, posts: seq<Msg>)

  ghost function Enter(ctl: Control): Control {
    ctl.(inside := true)
  }

  /** The next action of a rank inside execute; a wait whose notification is down changes nothing. */
  ghost function Advance(cfg: Config, r: nat, ctl: Control, notes: set<Slot>): Outcome
    requires cfg.Valid() && r < cfg.p && ControlOk(cfg, ctl) && ctl.inside
  {
    var i := ctl.step;
    match ctl.phase
    case InitTransfer =>
      if i == cfg.steps then Outcome(Control(ctl.episodes + 1, false, 0, InitTransfer), notes, [])
      else Outcome(ctl.(phase := WaitData), notes, [Notify(Target(cfg, r, i), Dat(i))])
    case WaitData =>
      if Dat(i) in notes then Outcome(ctl.(phase := AckData), notes - {Dat(i)}, []) else Outcome(ctl, notes, [])
    case AckData => Outcome(ctl.(phase := WaitAck), notes, [Notify(Source(cfg, r, i), Ack(i))])
    case WaitAck =>
      if Ack(i) in notes then Outcome(ctl.(step := i + 1, phase := InitTransfer), notes - {Ack(i)}, [])
      else Outcome(ctl, notes, [])
  }

  // ----- all ranks -----

  datatype State = State(net: Net<Cell, Slot, ()>, ctl: seq<Control>)

  datatype Action = DoEnter(r: nat) | DoAdvance(r: nat) | DoDeliver(t: Msg)

  ghost predicate Shape(cfg: Config, s: State) {
    && cfg.Valid()
    && |s.net.procs| == |s.ctl| == cfg.p
    && forall r :: 0 <= r < cfg.p ==> ControlOk(cfg, s.ctl[r])
  }

  ghost predicate Enabled(cfg: Config, s: State, a: Action)
    requires Shape(cfg, s)
  {
    match a
    case DoEnter(r) => r < cfg.p && !s.ctl[r].inside
    case DoAdvance(r) => r < cfg.p && s.ctl[r].inside
    case DoDeliver(t) => Deliverable(s.net, t)
  }

  ghost function Local(cfg: Config, s: State, r: nat): Outcome
    requires Shape(cfg, s) && Enabled(cfg, s, DoAdvance(r))
  {
    Advance(cfg, r, s.ctl[r], s.net.procs[r].notes)
  }

  ghost function Step(cfg: Config, s: State, a: Action): State
    requires Shape(cfg, s) && Enabled(cfg, s, a)
  {
    match a
    case DoEnter(r) => s.(ctl := s.ctl[r := Enter(s.ctl[r])])
    case DoAdvance(r) =>
      var o := Local(cfg, s, r);
      State(Act(s.net, r, s.net.procs[r].(notes := o.notes), o.posts), s.ctl[r := o.ctl])
    case DoDeliver(t) => s.(net := Deliver(s.net, t))
  }

  ghost predicate Init(cfg: Config, s: State) {
    && Shape(cfg, s)
    && s.net.pending == multiset{}
    && forall r :: 0 <= r < cfg.p ==>
                     s.ctl[r] == Control(0, false, 0, InitTransfer) && s.net.procs[r].notes == {}
  }

  ghost predicate Transition(cfg: Config, s: State, s': State) {
    Shape(cfg, s) && exists a :: Enabled(cfg, s, a) && s' == Step(cfg, s, a)
  }

  ghost predicate IsRun(cfg: Config, run: seq<State>) {
    && 0 < |run|
    && Init(cfg, run[0])
    && forall i :: 0 <= i < |run| - 1 ==> Transition(cfg, run[i], run[i + 1])
  }

  ghost predicate Reachable(cfg: Config, s: State) {
    exists run :: IsRun(cfg, run) && run[|run| - 1] == s
  }

  /** How many executes a rank has started, and how many it has returned from. */
  ghost function Entered(s: State, r: nat): nat
    requires r < |s.ctl|
  {
    s.ctl[r].episodes + if s.ctl[r].inside then 1 else 0
  }

  ghost function Completed(s: State, r: nat): nat
    requires r < |s.ctl|
  {
    s.ctl[r].episodes
  }
}
