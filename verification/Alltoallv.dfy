/** Blocking alltoallv and allgatherv: descriptor exchange through the tagged rendezvous, one write
    per pair of ranks, acks.  The machine lets any number of ranks make any number of calls in any
    interleaving.

    Source and target of a call are one flat buffer each.  A rank tells every other rank at which
    offset of its target, and how much, that rank may write; the sizes at the two ends need not agree. */
module Alltoallv {
  import opened Transport
  import opened Descriptions
  import opened PrefixSums

  /** `SendBuf(j)`, `RecvBuf(i)`: the buffers through which descriptions travel.  A transfer between
      source and target names parts of them. */
  datatype Cell =
    | Source | Target | SendBuf(j: nat) | RecvBuf(j: nat)
    | Part(of: Cell, offset: nat, size: nat)

  /** `Got(i)`: rank i's description has arrived; `Sent(j)`: the one for rank j has left; `Data(i)`:
      rank i's block has arrived; `Ack(j)`: rank j has received this rank's block. */
  datatype Slot = Got(j: nat) | Sent(j: nat) | Data(j: nat) | Ack(j: nat)

  datatype Value<T> = Flat(data: seq<T>) | Described(description: BufferDescription)

  type Msg = Transfer<Cell, Slot>
  type Proc<T> = Process<Cell, Slot, Value<T>>
  type Network<T> = Net<Cell, Slot, Value<T>>

  /** The arguments of rank r's k-th call: `input(r, k)` is its source buffer, of which rank j gets
      `sourceSizes(r, k)[j]` elements from `sourceOffsets(r, k)[j]` on; it expects
      `targetSizes(r, k)[j]` elements from rank j.  `scratch(r, k)` is what its target buffer holds
      when the call begins. */
  datatype Config<!T> = Config(p: nat, segment: nat -> nat, input: (nat, nat) -> seq<T>, scratch: (nat, nat) -> seq<T>,
                               sourceOffsets: (nat, nat) -> seq<nat>, sourceSizes: (nat, nat) -> seq<nat>,
                               targetSizes: (nat, nat) -> seq<nat>) {
    ghost predicate Valid() {
      1 <= p && forall r, k :: ValidCall(r, k)
    }

    ghost predicate ValidCall(r: nat, k: nat) {
      && |sourceOffsets(r, k)| == |sourceSizes(r, k)| == |targetSizes(r, k)| == p
      && |scratch(r, k)| == Sum(targetSizes(r, k), p)
      && forall j :: 0 <= j < p ==> sourceOffsets(r, k)[j] + sourceSizes(r, k)[j] <= |input(r, k)|
    }
  }

  /** Rank i's description of its target block for rank j in its k-th call. */
  ghost function Describe<T>(cfg: Config<T>, i: nat, j: nat, k: nat): BufferDescription
    requires cfg.Valid() && j < cfg.p
  {
    assert cfg.ValidCall(i, k);
    BufferDescription(i, cfg.segment(i), Sum(cfg.targetSizes(i, k), j), cfg.targetSizes(i, k)[j], j)
  }

  /** context.write into the target part that `d` describes: of no elements, a bare notification. */
  function WriteTo(r: nat, offset: nat, size: nat, d: BufferDescription): Msg {
    if size == 0 then Notify(d.rank, Data(d.notificationId))
    else Write(r, Part(Source, offset, size), d.rank, Part(Target, d.offset, size), Data(d.notificationId))
  }

  /** The transfer of i's block for j in their k-th call. */
  ghost function Carried<T>(cfg: Config<T>, i: nat, j: nat, k: nat): (t: Msg)
    requires cfg.Valid() && i < cfg.p && j < cfg.p
    ensures t.dst == j && t.slot == Data(i)
  {
    assert cfg.ValidCall(i, k);
    WriteTo(i, cfg.sourceOffsets(i, k)[j], cfg.sourceSizes(i, k)[j], Describe(cfg, j, i, k))
  }

  /** Rank i's block for rank j is not larger than what j expects from it. */
  ghost predicate Fits<T>(cfg: Config<T>, i: nat, j: nat, k: nat)
    requires cfg.Valid() && i < cfg.p && j < cfg.p
  {
    assert cfg.ValidCall(i, k) && cfg.ValidCall(j, k);
    cfg.sourceSizes(i, k)[j] <= cfg.targetSizes(j, k)[i]
  }

  /** The loops of the call, in program order; a rank whose write has been refused has thrown. */
  datatype Stage = PostSend | PostRecv | Exchange | Collect | WaitAck | WaitSent | Return | Thrown

  /** `calls` counts the calls a rank has returned from. */
  datatype Control = Control(calls: nat, inside: bool, stage: Stage, i: nat)

  ghost predicate ControlOk<T>(cfg: Config<T>, ctl: Control) {
    && (!ctl.inside ==> ctl.stage.PostSend? && ctl.i == 0)
    && (if ctl.stage.Return? then ctl.i == 0 else ctl.i < cfg.p)
  }

  ghost predicate Allocated<T>(cfg: Config<T>, proc: Proc<T>) {
    && Source in proc.mem && Target in proc.mem
    && forall j :: 0 <= j < cfg.p ==> SendBuf(j) in proc.mem && RecvBuf(j) in proc.mem
  }

  datatype Outcome<T> = Outcome(ctl: Control, proc: Proc<T>, posts: seq<Msg>)

  /** The next pass of a loop that `last` follows. */
  function NextPass<T>(cfg: Config<T>, ctl: Control, first: Stage, last: Stage): Control {
    if ctl.i + 1 < cfg.p then ctl.(stage := first, i := ctl.i + 1) else ctl.(stage := last, i := 0)
  }

  /** A call begins; between calls the caller may have written anything into the buffers. */
  ghost function Enter<T>(cfg: Config<T>, r: nat, ctl: Control, proc: Proc<T>): Outcome<T> {
    Outcome(ctl.(inside := true),
            proc.(mem := proc.mem[Source := Flat(cfg.input(r, ctl.calls))]
                                 [Target := Flat(cfg.scratch(r, ctl.calls))]), [])
  }

  /** Rank r, having rank i's description `d`, writes its block, or throws if the block is too large. */
  ghost function Exchanged<T>(cfg: Config<T>, r: nat, ctl: Control, proc: Proc<T>, d: BufferDescription): Outcome<T>
    requires cfg.Valid() && ctl.i < cfg.p
  {
    assert cfg.ValidCall(r, ctl.calls);
    var offset, size := cfg.sourceOffsets(r, ctl.calls)[ctl.i], cfg.sourceSizes(r, ctl.calls)[ctl.i];
    if size > d.size then Outcome(ctl.(stage := Thrown), proc, [])
    else Outcome(NextPass(cfg, ctl, Exchange, Collect), proc, [WriteTo(r, offset, size, d)])
  }

  /** The next action of rank `r`; a wait whose notification is down changes nothing. */
  ghost function Advance<T>(cfg: Config<T>, r: nat, ctl: Control, proc: Proc<T>): Outcome<T>
    requires cfg.Valid() && ControlOk(cfg, ctl) && ctl.inside && Allocated(cfg, proc)
  {
    var i := ctl.i;
    match ctl.stage
    case PostSend =>
      Outcome(ctl.(stage := PostRecv),
              proc.(mem := proc.mem[SendBuf(i) := Described(Describe(cfg, r, i, ctl.calls))]), [])
    case PostRecv => Outcome(NextPass(cfg, ctl, PostSend, Exchange), proc, [])
    case Exchange =>
      if Got(i) !in proc.notes || !proc.mem[RecvBuf(i)].Described? then Outcome(ctl, proc, [])
      else Exchanged(cfg, r, ctl, proc.(notes := proc.notes - {Got(i)}), proc.mem[RecvBuf(i)].description)
    case Collect =>
      if Data(i) !in proc.notes then Outcome(ctl, proc, [])
      else Outcome(NextPass(cfg, ctl, Collect, WaitAck), proc.(notes := proc.notes - {Data(i)}), [Notify(i, Ack(r))])
    case WaitAck =>
      if Ack(i) !in proc.notes then Outcome(ctl, proc, [])
      else Outcome(ctl.(stage := WaitSent), proc.(notes := proc.notes - {Ack(i)}), [])
    case WaitSent =>
      if Sent(i) !in proc.notes then Outcome(ctl, proc, [])
      else Outcome(NextPass(cfg, ctl, WaitAck, Return), proc.(notes := proc.notes - {Sent(i)}), [])
    case Return => Outcome(Control(ctl.calls + 1, false, PostSend, 0), proc, [])
    case Thrown => Outcome(ctl, proc, [])
  }

  // ----- delivery -----

  /** `whole` with `piece` in place of the elements from `at` on. */
  function Splice<T>(whole: seq<T>, at: nat, piece: seq<T>): (s: seq<T>)
    requires at + |piece| <= |whole|
    ensures |s| == |whole|
  {
    whole[..at] + piece + whole[at + |piece|..]
  }

  /** `part` lies inside the flat buffer it is part of. */
  ghost predicate Inside<T>(mem: map<Cell, Value<T>>, part: Cell) {
    part.Part? && part.of in mem && mem[part.of].Flat? && part.offset + part.size <= |mem[part.of].data|
  }

  ghost function Elements<T>(mem: map<Cell, Value<T>>, part: Cell): (s: seq<T>)
    requires Inside(mem, part)
    ensures |s| == part.size
  {
    mem[part.of].data[part.offset..part.offset + part.size]
  }

  ghost predicate Arrivable<T>(net: Network<T>, t: Msg) {
    && t in net.pending && t.dst < |net.procs|
    && (t.Write? ==>
          && t.src < |net.procs|
          && if t.into.Part? then
               && Inside(net.procs[t.src].mem, t.from) && Inside(net.procs[t.dst].mem, t.into)
               && t.from.size == t.into.size
             else t.from in net.procs[t.src].mem)
  }

  /** A transfer between parts copies the elements that its source part holds now. */
  ghost function Arrive<T>(net: Network<T>, t: Msg): Network<T>
    requires Arrivable(net, t)
  {
    if t.Write? && t.into.Part? then
      var mem := net.procs[t.dst].mem;
      var after := Splice(mem[t.into.of].data, t.into.offset, Elements(net.procs[t.src].mem, t.from));
      Complete(net, t, mem[t.into.of := Flat(after)])
    else Deliver(net, t)
  }

  // ----- all ranks -----

  /** `sends` and `recvs` are the (from, to) pairs whose description has been offered, or asked
      for, and not yet been matched; `outs[r][k]` is the target buffer at the return of call k. */
  datatype State<T> = State(net: Network<T>, ctl: seq<Control>, sends: set<(nat, nat)>, recvs: set<(nat, nat)>,
                            outs: seq<seq<Value<T>>>)

  datatype Action = DoEnter(r: nat) | DoAdvance(r: nat) | DoMatch(i: nat, j: nat) | DoDeliver(t: Msg)

  ghost predicate Shape<T>(cfg: Config<T>, s: State<T>) {
    && cfg.Valid()
    && |s.net.procs| == |s.ctl| == |s.outs| == cfg.p
    && forall r :: 0 <= r < cfg.p ==> ControlOk(cfg, s.ctl[r]) && Allocated(cfg, s.net.procs[r])
  }

  ghost predicate Enabled<T>(cfg: Config<T>, s: State<T>, a: Action)
    requires Shape(cfg, s)
  {
    match a
    case DoEnter(r) => r < cfg.p && !s.ctl[r].inside
    case DoAdvance(r) => r < cfg.p && s.ctl[r].inside
    case DoMatch(i, j) => i < cfg.p && j < cfg.p && (i, j) in s.sends && (i, j) in s.recvs
    case DoDeliver(t) => Arrivable(s.net, t)
  }

  /** The transfer of a description from `i` to `j`. */
  function SendDescription(i: nat, j: nat): Msg {
    Write(i, SendBuf(j), j, RecvBuf(i), Got(i))
  }

  ghost function Local<T>(cfg: Config<T>, s: State<T>, a: Action): Outcome<T>
    requires Shape(cfg, s) && Enabled(cfg, s, a) && (a.DoEnter? || a.DoAdvance?)
  {
    if a.DoEnter? then Enter(cfg, a.r, s.ctl[a.r], s.net.procs[a.r])
    else Advance(cfg, a.r, s.ctl[a.r], s.net.procs[a.r])
  }

  ghost function Step<T>(cfg: Config<T>, s: State<T>, a: Action): State<T>
    requires Shape(cfg, s) && Enabled(cfg, s, a)
  {
    match a
    case DoEnter(r) =>
      var o := Local(cfg, s, a);
      s.(net := Act(s.net, r, o.proc, o.posts), ctl := s.ctl[r := o.ctl])
    case DoAdvance(r) =>
      var ctl, o := s.ctl[r], Local(cfg, s, a);
      State(Act(s.net, r, o.proc, o.posts), s.ctl[r := o.ctl],
            if ctl.stage.PostSend? then s.sends + {(r, ctl.i)} else s.sends,
            if ctl.stage.PostRecv? then s.recvs + {(ctl.i, r)} else s.recvs,
            if ctl.stage.Return? then s.outs[r := s.outs[r] + [o.proc.mem[Target]]] else s.outs)
    case DoMatch(i, j) =>
      s.(net := s.net.(pending := s.net.pending + multiset{SendDescription(i, j), Notify(i, Sent(j))}),
         sends := s.sends - {(i, j)}, recvs := s.recvs - {(i, j)})
    case DoDeliver(t) => s.(net := Arrive(s.net, t))
  }

  ghost predicate Init<T>(cfg: Config<T>, s: State<T>) {
    && Shape(cfg, s)
    && s.net.pending == multiset{} && s.sends == {} && s.recvs == {}
    && forall r :: 0 <= r < cfg.p ==>
                     && s.ctl[r] == Control(0, false, PostSend, 0) && s.net.procs[r].notes == {} && s.outs[r] == []
  }

  ghost predicate Transition<T>(cfg: Config<T>, s: State<T>, s': State<T>) {
    Shape(cfg, s) && exists a :: Enabled(cfg, s, a) && s' == Step(cfg, s, a)
  }

  ghost predicate IsRun<T>(cfg: Config<T>, run: seq<State<T>>) {
    && 0 < |run|
    && Init(cfg, run[0])
    && forall i :: 0 <= i < |run| - 1 ==> Transition(cfg, run[i], run[i + 1])
  }

  ghost predicate Reachable<T(!new)>(cfg: Config<T>, s: State<T>) {
    exists run :: IsRun(cfg, run) && run[|run| - 1] == s
  }
}
