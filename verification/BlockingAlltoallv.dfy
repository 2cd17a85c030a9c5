/** The alltoallv call of one rank: the loop that describes its blocks, and the loops that exchange
    descriptions, write, acknowledge and wait, each pass an action of the machine. */
module BlockingAlltoallv {
  import opened PrefixSums
  import opened Transport
  import opened Alltoallv
  import opened Descriptions
  import opened Waiting

  // ----- the blocks -----

  /** The descriptions of the consecutive blocks of a buffer at `base`. */
  method DescribeBlocks(rank: nat, segment: nat, base: nat, sizes: seq<nat>, notifications: seq<nat>)
    returns (descriptions: seq<BufferDescription>)
    requires |notifications| == |sizes|
    ensures |descriptions| == |sizes|
    ensures forall i :: 0 <= i < |sizes| ==>
                          descriptions[i]
                          == BufferDescription(rank, segment, base + Sum(sizes, i), sizes[i], notifications[i])
  {
    descriptions := [];
    var offset := 0;
    for i := 0 to |sizes|
      invariant |descriptions| == i && offset == Sum(sizes, i)
      invariant forall j :: 0 <= j < i ==>
                  descriptions[j]
                  == BufferDescription(rank, segment, base + Sum(sizes, j), sizes[j], notifications[j])
    {
      descriptions := descriptions + [BufferDescription(rank, segment, base + offset, sizes[i], notifications[i])];
      offset := offset + sizes[i];
    }
  }

  // ----- the transfers of one call -----

  ghost function Writes<T>(cfg: Config<T>, r: nat, k: nat, n: nat): seq<Msg>
    requires cfg.Valid() && r < cfg.p && n <= cfg.p
  {
    if n == 0 then [] else Writes(cfg, r, k, n - 1) + [Carried(cfg, r, n - 1, k)]
  }

  function Acks(r: nat, n: nat): seq<Msg> {
    if n == 0 then [] else Acks(r, n - 1) + [Notify(n - 1, Ack(r))]
  }

  /** What a rank has posted since it entered the call. */
  ghost function SoFar<T>(cfg: Config<T>, r: nat, ctl: Control): seq<Msg>
    requires cfg.Valid() && r < cfg.p && ControlOk(cfg, ctl)
  {
    match ctl.stage
    case PostSend => []
    case PostRecv => []
    case Exchange => Writes(cfg, r, ctl.calls, ctl.i)
    case Thrown => Writes(cfg, r, ctl.calls, ctl.i)
    case Collect => Writes(cfg, r, ctl.calls, cfg.p) + Acks(r, ctl.i)
    case WaitAck => Writes(cfg, r, ctl.calls, cfg.p) + Acks(r, cfg.p)
    case WaitSent => Writes(cfg, r, ctl.calls, cfg.p) + Acks(r, cfg.p)
    case Return => Writes(cfg, r, ctl.calls, cfg.p) + Acks(r, cfg.p)
  }

  /** The two actions of the first loop. */
  lemma PostSteps<T>(cfg: Config<T>, r: nat, ctl: Control, proc: Proc<T>)
    requires cfg.Valid() && r < cfg.p && ControlOk(cfg, ctl) && ctl.inside && Allocated(cfg, proc)
    ensures ctl.stage.PostSend? ==>
              Advance(cfg, r, ctl, proc)
              == Outcome(ctl.(stage := PostRecv),
                         proc.(mem := proc.mem[SendBuf(ctl.i) := Described(Describe(cfg, r, ctl.i, ctl.calls))]), [])
    ensures ctl.stage.PostRecv? ==>
              Advance(cfg, r, ctl, proc) == Outcome(NextPass(cfg, ctl, PostSend, Exchange), proc, [])
    ensures ctl.stage.PostRecv? ==> SoFar(cfg, r, NextPass(cfg, ctl, PostSend, Exchange)) == []
  {}

  /** The actions that post: what has been posted grows by the transfer of the pass. */
  lemma ExchangeStep<T>(cfg: Config<T>, r: nat, ctl: Control, proc: Proc<T>)
    requires cfg.Valid() && r < cfg.p && ControlOk(cfg, ctl) && ctl.inside && ctl.stage.Exchange?
    requires Allocated(cfg, proc)
    requires Got(ctl.i) in proc.notes && proc.mem[RecvBuf(ctl.i)] == Described(Describe(cfg, ctl.i, r, ctl.calls))
    ensures var o := Advance(cfg, r, ctl, proc);
            var fits := Fits(cfg, r, ctl.i, ctl.calls);
            && o == Outcome(if fits then NextPass(cfg, ctl, Exchange, Collect) else ctl.(stage := Thrown),
                            proc.(notes := proc.notes - {Got(ctl.i)}),
                            if fits then [Carried(cfg, r, ctl.i, ctl.calls)] else [])
            && SoFar(cfg, r, o.ctl) == SoFar(cfg, r, ctl) + o.posts
  {
    assert Acks(r, 0) == [];
    assert Writes(cfg, r, ctl.calls, ctl.i) + [] == Writes(cfg, r, ctl.calls, ctl.i);
  }

  lemma CollectStep<T>(cfg: Config<T>, r: nat, ctl: Control, proc: Proc<T>)
    requires cfg.Valid() && r < cfg.p && ControlOk(cfg, ctl) && ctl.inside && ctl.stage.Collect? && Allocated(cfg, proc)
    requires Data(ctl.i) in proc.notes
    ensures var o := Advance(cfg, r, ctl, proc);
            && o == Outcome(NextPass(cfg, ctl, Collect, WaitAck), proc.(notes := proc.notes - {Data(ctl.i)}),
                            [Notify(ctl.i, Ack(r))])
            && SoFar(cfg, r, o.ctl) == SoFar(cfg, r, ctl) + o.posts
  {
    assert Acks(r, ctl.i + 1) == Acks(r, ctl.i) + [Notify(ctl.i, Ack(r))];
  }

  /** The two waits that post nothing. */
  lemma AckStep<T>(cfg: Config<T>, r: nat, ctl: Control, proc: Proc<T>)
    requires cfg.Valid() && r < cfg.p && ControlOk(cfg, ctl) && ctl.inside && ctl.stage.WaitAck? && Allocated(cfg, proc)
    requires Ack(ctl.i) in proc.notes
    ensures Advance(cfg, r, ctl, proc)
            == Outcome(ctl.(stage := WaitSent), proc.(notes := proc.notes - {Ack(ctl.i)}), [])
    ensures SoFar(cfg, r, ctl.(stage := WaitSent)) == SoFar(cfg, r, ctl)
  {}

  lemma SentStep<T>(cfg: Config<T>, r: nat, ctl: Control, proc: Proc<T>)
    requires cfg.Valid() && r < cfg.p && ControlOk(cfg, ctl) && ctl.inside && ctl.stage.WaitSent?
    requires Allocated(cfg, proc)
    requires Sent(ctl.i) in proc.notes
    ensures Advance(cfg, r, ctl, proc)
            == Outcome(NextPass(cfg, ctl, WaitAck, Return), proc.(notes := proc.notes - {Sent(ctl.i)}), [])
    ensures SoFar(cfg, r, NextPass(cfg, ctl, WaitAck, Return)) == SoFar(cfg, r, ctl)
  {}

  lemma {:induction false} WritesAre<T>(cfg: Config<T>, r: nat, k: nat, n: nat, j: nat)
    requires cfg.Valid() && r < cfg.p && j < n <= cfg.p
    ensures |Writes(cfg, r, k, n)| == n && Writes(cfg, r, k, n)[j] == Carried(cfg, r, j, k)
  {
    if j < n - 1 {
      WritesAre(cfg, r, k, n - 1, j);
    } else if 0 < j {
      WritesAre(cfg, r, k, n - 1, 0);
    }
  }

  lemma {:induction false} AcksAre(r: nat, n: nat, j: nat)
    requires j < n
    ensures |Acks(r, n)| == n && Acks(r, n)[j] == Notify(j, Ack(r))
  {
    if j < n - 1 {
      AcksAre(r, n - 1, j);
    } else if 0 < j {
      AcksAre(r, n - 1, 0);
    }
  }

  /** `sent` is one block for each of the first ranks, in order, and then one ack for each of them. */
  ghost predicate BlocksThenAcks<T>(cfg: Config<T>, r: nat, k: nat, sent: seq<Msg>)
    requires cfg.Valid() && r < cfg.p
  {
    forall j :: 0 <= j < |sent| ==> sent[j] == if j < cfg.p then Carried(cfg, r, j, k) else Notify(j - cfg.p, Ack(r))
  }

  lemma WritesThenAcks<T>(cfg: Config<T>, r: nat, k: nat, n: nat, m: nat)
    requires cfg.Valid() && r < cfg.p && n <= cfg.p && (m == 0 || n == cfg.p)
    ensures var sent := Writes(cfg, r, k, n) + Acks(r, m); |sent| == n + m && BlocksThenAcks(cfg, r, k, sent)
  {
    var sent := Writes(cfg, r, k, n) + Acks(r, m);
    if 0 < n { WritesAre(cfg, r, k, n, 0); }
    if 0 < m { AcksAre(r, m, 0); }
    forall j | 0 <= j < |sent|
      ensures sent[j] == if j < cfg.p then Carried(cfg, r, j, k) else Notify(j - cfg.p, Ack(r))
    {
      if j < n { WritesAre(cfg, r, k, n, j); } else { AcksAre(r, m, j - n); }
    }
  }

  /** What a rank has posted, message by message. */
  lemma SoFarIs<T>(cfg: Config<T>, r: nat, ctl: Control)
    requires cfg.Valid() && r < cfg.p && ControlOk(cfg, ctl)
    ensures BlocksThenAcks(cfg, r, ctl.calls, SoFar(cfg, r, ctl))
    ensures |SoFar(cfg, r, ctl)| == match ctl.stage
                                    case PostSend => 0
                                    case PostRecv => 0
                                    case Exchange => ctl.i
                                    case Thrown => ctl.i
                                    case Collect => cfg.p + ctl.i
                                    case _ => 2 * cfg.p
  {
    match ctl.stage {
      case PostSend =>
      case PostRecv =>
      case Exchange => WritesThenAcks(cfg, r, ctl.calls, ctl.i, 0); assert Acks(r, 0) == [];
      case Thrown => WritesThenAcks(cfg, r, ctl.calls, ctl.i, 0); assert Acks(r, 0) == [];
      case Collect => WritesThenAcks(cfg, r, ctl.calls, cfg.p, ctl.i);
      case _ => WritesThenAcks(cfg, r, ctl.calls, cfg.p, cfg.p);
    }
  }

  // ----- the waits of one call -----

  /** The notification that a call among `p` ranks waits for in its wait number `n`. */
  function WaitSlot(p: nat, n: nat): Slot {
    if n < p then Got(n)
    else if n < 2 * p then Data(n - p)
    else if (n - 2 * p) % 2 == 0 then Ack((n - 2 * p) / 2)
    else Sent((n - 2 * p) / 2)
  }

  function Waits(p: nat, n: nat): (slots: seq<Slot>)
    ensures |slots| == n && forall i :: 0 <= i < n ==> slots[i] == WaitSlot(p, i)
  {
    if n == 0 then [] else Waits(p, n - 1) + [WaitSlot(p, n - 1)]
  }

  /** The waits behind a rank that has come to `ctl` without throwing. */
  function WaitsBehind(p: nat, ctl: Control): nat {
    match ctl.stage
    case PostSend => 0
    case PostRecv => 0
    case Exchange => ctl.i
    case Thrown => ctl.i + 1
    case Collect => p + ctl.i
    case WaitAck => 2 * p + 2 * ctl.i
    case WaitSent => 2 * p + 2 * ctl.i + 1
    case Return => 4 * p
  }

  lemma NextWaits<T>(cfg: Config<T>, ctl: Control)
    requires ctl.i < cfg.p
    ensures ctl.stage.Exchange? ==> WaitsBehind(cfg.p, NextPass(cfg, ctl, Exchange, Collect)) == ctl.i + 1
    ensures ctl.stage.Collect? ==>
              WaitsBehind(cfg.p, NextPass(cfg, ctl, Collect, WaitAck)) == WaitsBehind(cfg.p, ctl) + 1
    ensures ctl.stage.WaitAck? ==>
              WaitsBehind(cfg.p, NextPass(cfg, ctl, WaitAck, Return)) == WaitsBehind(cfg.p, ctl) + 2
    ensures ctl.stage.Collect? ==> WaitSlot(cfg.p, WaitsBehind(cfg.p, ctl)) == Data(ctl.i)
  {}

  /** The first `n` notifications that a call waits for are raised or will be. */
  predicate NeededCome(p: nat, n: nat, notes: set<Slot>, arrivals: seq<Slot>) {
    forall i :: 0 <= i < n ==> Coming(WaitSlot(p, i), notes, arrivals)
  }

  /** All waits of a call, and those up to the write that throws, spelled out. */
  lemma AllNeeded(p: nat, notes: set<Slot>, arrivals: seq<Slot>)
    ensures NeededCome(p, 4 * p, notes, arrivals) <==>
            forall j :: 0 <= j < p ==>
                          && (Got(j) in notes || Got(j) in arrivals) && (Data(j) in notes || Data(j) in arrivals)
                          && (Ack(j) in notes || Ack(j) in arrivals) && (Sent(j) in notes || Sent(j) in arrivals)
  {
    if NeededCome(p, 4 * p, notes, arrivals) {
      forall j | 0 <= j < p
        ensures Coming(Got(j), notes, arrivals) && Coming(Data(j), notes, arrivals)
        ensures Coming(Ack(j), notes, arrivals) && Coming(Sent(j), notes, arrivals)
      {
        assert WaitSlot(p, j) == Got(j) && WaitSlot(p, p + j) == Data(j);
        assert WaitSlot(p, 2 * p + 2 * j) == Ack(j) && WaitSlot(p, 2 * p + 2 * j + 1) == Sent(j);
      }
    }
  }

  lemma SomeNeeded(p: nat, n: nat, notes: set<Slot>, arrivals: seq<Slot>)
    requires n <= p
    ensures NeededCome(p, n, notes, arrivals) <==> forall j :: 0 <= j < n ==> Got(j) in notes || Got(j) in arrivals
  {
    if NeededCome(p, n, notes, arrivals) {
      forall j | 0 <= j < n ensures Coming(Got(j), notes, arrivals) {
        assert WaitSlot(p, j) == Got(j);
      }
    }
  }

  lemma WaitsEnd(p: nat, n: nat, notes: set<Slot>, arrivals: seq<Slot>)
    requires n <= 4 * p
    ensures AfterWaits(Waits(p, n), notes, arrivals).raised <==> NeededCome(p, n, notes, arrivals)
  {
    var slots := Waits(p, n);
    forall i, j | 0 <= i < j < n ensures slots[i] != slots[j] {
      assert slots[i] == WaitSlot(p, i) && slots[j] == WaitSlot(p, j);
    }
    AllCome(slots, notes, arrivals);
    forall i | 0 <= i < n ensures WaitSlot(p, i) in slots {
      assert slots[i] == WaitSlot(p, i);
    }
  }

  /** A wait that does not end is the last one. */
  lemma {:induction false} Stops(p: nat, n: nat, m: nat, notes: set<Slot>, arrivals: seq<Slot>)
    requires n <= m && !AfterWaits(Waits(p, n), notes, arrivals).raised
    ensures AfterWaits(Waits(p, m), notes, arrivals) == AfterWaits(Waits(p, n), notes, arrivals)
  {
    if n == m {
    } else {
      Stops(p, n, m - 1, notes, arrivals);
      OneMoreWait(Waits(p, m - 1), WaitSlot(p, m - 1), notes, arrivals);
    }
  }

  /** The two waits of a pass of the last loop, after `n` waits. */
  lemma LastWaits(p: nat, i: nat, n: nat, notes0: set<Slot>, arrivals0: seq<Slot>, notes: set<Slot>, rest: seq<Slot>)
    requires i < p && n == 2 * p + 2 * i && AfterWaits(Waits(p, n), notes0, arrivals0) == Waited(true, notes, rest)
    ensures AfterWaits(Waits(p, n + 2), notes0, arrivals0) == AfterWaits([Ack(i), Sent(i)], notes, rest)
  {
    assert WaitSlot(p, n) == Ack(i) && WaitSlot(p, n + 1) == Sent(i);
    TwoWaits(Ack(i), Sent(i), notes, rest);
    OneMoreWait(Waits(p, n), Ack(i), notes0, arrivals0);
    OneMoreWait(Waits(p, n + 1), Sent(i), notes0, arrivals0);
    assert Waits(p, n + 2) == Waits(p, n + 1) + [Sent(i)];
  }

  /** Wait number `n` of a call of at least `m` waits: if it does not end, it is the last one. */
  lemma NextWaitEnds(p: nat, n: nat, m: nat, notes0: set<Slot>, arrivals0: seq<Slot>, notes: set<Slot>, rest: seq<Slot>)
    requires n < m && AfterWaits(Waits(p, n), notes0, arrivals0) == Waited(true, notes, rest)
    ensures var w := AfterWait(WaitSlot(p, n), notes, rest);
            w == AfterWaits(Waits(p, if w.raised then n + 1 else m), notes0, arrivals0)
  {
    OneMoreWait(Waits(p, n), WaitSlot(p, n), notes0, arrivals0);
    assert Waits(p, n + 1) == Waits(p, n) + [WaitSlot(p, n)];
    if !AfterWait(WaitSlot(p, n), notes, rest).raised { Stops(p, n + 1, m, notes0, arrivals0); }
  }

  /** The same for the two waits of a pass of the last loop. */
  lemma LastWaitsEnd(p: nat, i: nat, n: nat, notes0: set<Slot>, arrivals0: seq<Slot>, notes: set<Slot>, rest: seq<Slot>)
    requires i < p && n == 2 * p + 2 * i && AfterWaits(Waits(p, n), notes0, arrivals0) == Waited(true, notes, rest)
    ensures var w := AfterWaits([Ack(i), Sent(i)], notes, rest);
            w == AfterWaits(Waits(p, if w.raised then n + 2 else 4 * p), notes0, arrivals0)
  {
    LastWaits(p, i, n, notes0, arrivals0, notes, rest);
    if !AfterWaits([Ack(i), Sent(i)], notes, rest).raised { Stops(p, n + 2, 4 * p, notes0, arrivals0); }
  }

  /** The number of ranks that have been offered a description when a call has come to `ctl`. */
  function Offers(p: nat, ctl: Control): nat {
    match ctl.stage
    case PostSend => ctl.i
    case PostRecv => ctl.i + 1
    case _ => p
  }

  /** The first rank from `i` on that rank r's block does not fit, or `p`. */
  ghost function FirstMisfit<T>(cfg: Config<T>, r: nat, k: nat, i: nat): (f: nat)
    requires cfg.Valid() && r < cfg.p && i <= cfg.p
    ensures i <= f <= cfg.p && (f < cfg.p ==> !Fits(cfg, r, f, k))
    ensures forall j :: i <= j < f ==> Fits(cfg, r, j, k)
    decreases cfg.p - i
  {
    if i < cfg.p && Fits(cfg, r, i, k) then FirstMisfit(cfg, r, k, i + 1) else i
  }

  /** The number of waits of a call: all of them, or those up to the write that throws. */
  ghost function WaitCount<T>(cfg: Config<T>, r: nat, k: nat): (n: nat)
    requires cfg.Valid() && r < cfg.p
    ensures n <= 4 * cfg.p
  {
    var f := FirstMisfit(cfg, r, k, 0);
    if f < cfg.p then f + 1 else 4 * cfg.p
  }

  /** `w` is the end of the waits of rank r's k-th call, if `notes` were raised when it began and
      `arrivals` came: it is over exactly if all notifications it waits for are among them. */
  ghost predicate Over<T>(cfg: Config<T>, r: nat, k: nat, notes: set<Slot>, arrivals: seq<Slot>, w: Waited<Slot>)
    requires cfg.Valid() && r < cfg.p
  {
    var n := WaitCount(cfg, r, k);
    w == AfterWaits(Waits(cfg.p, n), notes, arrivals) && (w.raised <==> NeededCome(cfg.p, n, notes, arrivals))
  }

  /** What a call needs whose first block that does not fit is the one for rank `f`: the descriptions up
      to that one, or, if all blocks fit, everything. */
  ghost predicate Needed(p: nat, f: nat, notes: set<Slot>, arrivals: seq<Slot>) {
    if f < p then forall j :: 0 <= j <= f ==> Got(j) in notes || Got(j) in arrivals
    else forall j :: 0 <= j < p ==>
                       && (Got(j) in notes || Got(j) in arrivals) && (Data(j) in notes || Data(j) in arrivals)
                       && (Ack(j) in notes || Ack(j) in arrivals) && (Sent(j) in notes || Sent(j) in arrivals)
  }

  lemma OverIs<T>(cfg: Config<T>, r: nat, k: nat, notes: set<Slot>, arrivals: seq<Slot>, w: Waited<Slot>)
    requires cfg.Valid() && r < cfg.p && Over(cfg, r, k, notes, arrivals, w)
    ensures w.raised <==> Needed(cfg.p, FirstMisfit(cfg, r, k, 0), notes, arrivals)
  {
    var f := FirstMisfit(cfg, r, k, 0);
    if f < cfg.p { SomeNeeded(cfg.p, f + 1, notes, arrivals); } else { AllNeeded(cfg.p, notes, arrivals); }
  }

  /** Something that reaches a waiting rank: a notification, with the description it announces. */
  datatype Arrival = Arrival(slot: Slot, description: BufferDescription)

  function Slots(arrivals: seq<Arrival>): (slots: seq<Slot>) {
    if arrivals == [] then [] else [arrivals[0].slot] + Slots(arrivals[1..])
  }

  lemma {:induction false} SlotsAre(arrivals: seq<Arrival>)
    ensures |Slots(arrivals)| == |arrivals|
    ensures forall i :: 0 <= i < |arrivals| ==> Slots(arrivals)[i] == arrivals[i].slot
  {
    if arrivals != [] { SlotsAre(arrivals[1..]); }
  }

  /** How a call ends, or that it is still waiting. */
  datatype End = Returned | Threw | Waiting

  /** The caller's buffers are as they were passed, and the first `n` descriptions stand in theirs. */
  ghost predicate Holds<T>(cfg: Config<T>, r: nat, k: nat, mem: map<Cell, Value<T>>, n: nat)
    requires cfg.Valid() && r < cfg.p
  {
    && Source in mem && mem[Source] == Flat(cfg.input(r, k)) && Target in mem && mem[Target] == Flat(cfg.scratch(r, k))
    && forall j :: 0 <= j < cfg.p && j < n ==>
                     SendBuf(j) in mem && mem[SendBuf(j)] == Described(Describe(cfg, r, j, k))
  }

  lemma HoldsOneMore<T>(cfg: Config<T>, r: nat, k: nat, mem: map<Cell, Value<T>>, n: nat)
    requires cfg.Valid() && r < cfg.p && n < cfg.p && Holds(cfg, r, k, mem, n)
    ensures Holds(cfg, r, k, mem[SendBuf(n) := Described(Describe(cfg, r, n, k))], n + 1)
  {}

  class Caller<T> {
    const p: nat
    const rank: nat
    const sourceSegment: nat
    const targetSegment: nat
    var calls: nat
    var memory: map<Cell, Value<T>>
    var notes: set<Slot>
    var posted: seq<Msg>
    /** The (from, to) pairs given to iSendTagMessg and iRecvTagMessg. */
    var sends: seq<(nat, nat)>
    var recvs: seq<(nat, nat)>
    /** The descriptions of the blocks of the current call. */
    var localSources: seq<BufferDescription>
    var localTargets: seq<BufferDescription>
    ghost var ctl: Control

    constructor (p: nat, rank: nat, sourceSegment: nat, targetSegment: nat, memory: map<Cell, Value<T>>)
      requires rank < p
      ensures this.p == p && this.rank == rank && this.memory == memory && ctl == Control(0, false, PostSend, 0)
      ensures this.sourceSegment == sourceSegment && this.targetSegment == targetSegment
      ensures notes == {} && posted == [] && sends == [] && recvs == [] && calls == 0
    {
      this.p, this.rank, this.memory, this.calls := p, rank, memory, 0;
      this.sourceSegment, this.targetSegment := sourceSegment, targetSegment;
      this.notes, this.posted, this.sends, this.recvs := {}, [], [], [];
      this.localSources, this.localTargets := [], [];
      this.ctl := Control(0, false, PostSend, 0);
    }

    ghost function View(): Proc<T>
      reads this
    {
      Process(memory, notes)
    }

    /** Every description that has arrived is the one its owner made for this rank in this call. */
    ghost predicate Informed(cfg: Config<T>)
      reads this
      requires cfg.Valid() && rank < cfg.p
    {
      forall i :: 0 <= i < p && Got(i) in notes ==>
                    RecvBuf(i) in memory && memory[RecvBuf(i)] == Described(Describe(cfg, i, rank, calls))
    }

    ghost predicate Genuine(cfg: Config<T>, arrivals: seq<Arrival>)
      reads this`calls
      requires cfg.Valid() && rank < cfg.p
    {
      forall a :: a in arrivals && a.slot.Got? ==> a.description == Describe(cfg, a.slot.j, rank, calls)
    }

    /** The local descriptions are those of the arguments of the current call. */
    ghost predicate Describes(cfg: Config<T>)
      reads this
      requires cfg.Valid() && rank < cfg.p
    {
      assert cfg.ValidCall(rank, calls);
      && |localSources| == |localTargets| == cfg.p
      && forall i :: 0 <= i < cfg.p ==>
                       && localTargets[i] == Describe(cfg, rank, i, calls)
                       && localSources[i].offset == cfg.sourceOffsets(rank, calls)[i]
                       && localSources[i].size == cfg.sourceSizes(rank, calls)[i]
    }

    ghost predicate Models(cfg: Config<T>, before: seq<Msg>)
      reads this
    {
      && cfg.Valid() && cfg.p == p && rank < p && ControlOk(cfg, ctl) && ctl.calls == calls
      && Allocated(cfg, View()) && Informed(cfg) && Describes(cfg)
      && Holds(cfg, rank, calls, memory, Offers(p, ctl))
      && posted == before + SoFar(cfg, rank, ctl)
    }

    ghost predicate Ready(cfg: Config<T>, arrivals: seq<Arrival>)
      reads this
    {
      && cfg.Valid() && cfg.p == p && rank < p && ctl == Control(calls, false, PostSend, 0)
      && (forall i :: 0 <= i < p ==> SendBuf(i) in memory && RecvBuf(i) in memory)
      && Informed(cfg) && Genuine(cfg, arrivals)
    }

    /** The arguments of the call are those of the machine. */
    ghost predicate Passed(cfg: Config<T>, source: seq<T>, sourceSizes: seq<nat>, target: seq<T>, targetSizes: seq<nat>)
      reads this`calls
      requires cfg.Valid() && rank < cfg.p
    {
      assert cfg.ValidCall(rank, calls);
      && cfg.segment(rank) == targetSegment
      && cfg.input(rank, calls) == source && cfg.scratch(rank, calls) == target
      && cfg.sourceSizes(rank, calls) == sourceSizes && cfg.targetSizes(rank, calls) == targetSizes
      && forall j :: 0 <= j < cfg.p ==> cfg.sourceOffsets(rank, calls)[j] == Sum(sourceSizes, j)
    }

    /** The wait that the rank has come to does not end: its notification is down. */
    ghost predicate Stuck()
      reads this`ctl, this`notes
    {
      match ctl.stage
      case Exchange => Got(ctl.i) !in notes
      case Collect => Data(ctl.i) !in notes
      case WaitAck => Ack(ctl.i) !in notes
      case WaitSent => Sent(ctl.i) !in notes
      case _ => false
    }

    /** The waits of this call since it began, when `notes0` were raised and `arrivals` were to come. */
    ghost predicate HasWaited(n: nat, notes0: set<Slot>, arrivals: seq<Arrival>, rest: seq<Arrival>, raised: bool)
      reads this
    {
      Waited(raised, notes, Slots(rest)) == AfterWaits(Waits(p, n), notes0, Slots(arrivals))
    }

    /** Polls a notification until it is raised, and resets it; polling stops when arrivals run out. */
    method WaitFor(slot: Slot, arrivals: seq<Arrival>, ghost cfg: Config<T>)
      returns (raised: bool, rest: seq<Arrival>)
      requires cfg.Valid() && cfg.p == p && rank < p && Allocated(cfg, View()) && Informed(cfg)
      requires Genuine(cfg, arrivals)
      modifies this`notes, this`memory
      ensures Allocated(cfg, View()) && Informed(cfg) && Genuine(cfg, rest)
      ensures forall c :: c in old(memory) && !c.RecvBuf? ==> c in memory && memory[c] == old(memory)[c]
      ensures Waited(raised, notes, Slots(rest)) == AfterWait(slot, old(notes), Slots(arrivals))
      ensures slot !in notes && (raised <==> slot in old(notes) || slot in Slots(arrivals))
      ensures raised && slot.Got? && slot.j < p ==>
                memory[RecvBuf(slot.j)] == Described(Describe(cfg, slot.j, rank, calls))
    {
      WaitOutcome(slot, notes, Slots(arrivals));
      rest := arrivals;
      raised := slot in notes;
      while !raised && rest != []
        invariant Polling(slot, raised, rest, cfg, old(memory), AfterWait(slot, old(notes), Slots(arrivals)))
        decreases |rest|
      {
        raised, rest := Receive(slot, rest, cfg, old(memory), AfterWait(slot, old(notes), Slots(arrivals)));
      }
      notes := notes - {slot};
    }

    /** Waiting for `slot`, with `rest` still to come; `w` is how the wait will end. */
    ghost predicate Polling(slot: Slot, raised: bool, rest: seq<Arrival>, cfg: Config<T>, mem0: map<Cell, Value<T>>,
                            w: Waited<Slot>)
      reads this
    {
      && cfg.Valid() && cfg.p == p && rank < p && Allocated(cfg, View()) && Informed(cfg) && Genuine(cfg, rest)
      && (raised <==> slot in notes) && AfterWait(slot, notes, Slots(rest)) == w
      && forall c :: c in mem0 && !c.RecvBuf? ==> c in memory && memory[c] == mem0[c]
    }

    /** The next notification arrives, a description with the notification that announces it. */
    method Receive(slot: Slot, arrivals: seq<Arrival>, ghost cfg: Config<T>, ghost mem0: map<Cell, Value<T>>,
                   ghost w: Waited<Slot>)
      returns (raised: bool, rest: seq<Arrival>)
      requires arrivals != [] && Polling(slot, false, arrivals, cfg, mem0, w)
      modifies this`notes, this`memory
      ensures Polling(slot, raised, rest, cfg, mem0, w) && |rest| < |arrivals|
    {
      var a := arrivals[0];
      rest := arrivals[1..];
      assert a in arrivals && Slots(arrivals) == [a.slot] + Slots(rest);
      notes := notes + {a.slot};
      if a.slot.Got? { memory := memory[RecvBuf(a.slot.j) := Described(a.description)]; }
      raised := slot in notes;
    }

    /** iSendTagMessg: the description of rank i's block, out of its send buffer. */
    method Offer(i: nat, ghost cfg: Config<T>, ghost before: seq<Msg>)
      requires Models(cfg, before) && i < p && ctl == Control(calls, true, PostSend, i)
      modifies this`memory, this`sends, this`ctl
      ensures Models(cfg, before) && ctl == old(ctl).(stage := PostRecv)
      ensures Advance(cfg, rank, old(ctl), old(View())) == Outcome(ctl, View(), [])
      ensures memory == old(memory)[SendBuf(i) := Described(Describe(cfg, rank, i, calls))]
      ensures sends == old(sends) + [(rank, i)]
    {
      PostSteps(cfg, rank, ctl, View());
      HoldsOneMore(cfg, rank, calls, memory, i);
      memory := memory[SendBuf(i) := Described(localTargets[i])];
      sends := sends + [(rank, i)];
      ctl := ctl.(stage := PostRecv);
    }

    /** iRecvTagMessg. */
    method Ask(i: nat, ghost cfg: Config<T>, ghost before: seq<Msg>)
      requires Models(cfg, before) && i < p && ctl == Control(calls, true, PostRecv, i)
      modifies this`recvs, this`ctl
      ensures Models(cfg, before) && ctl == NextPass(cfg, old(ctl), PostSend, Exchange)
      ensures Advance(cfg, rank, old(ctl), old(View())) == Outcome(ctl, View(), [])
      ensures recvs == old(recvs) + [(i, rank)]
    {
      PostSteps(cfg, rank, ctl, View());
      recvs := recvs + [(i, rank)];
      ctl := NextPass(cfg, ctl, PostSend, Exchange);
    }

    /** First loop, one pass: offers a description to rank i and asks for its own. */
    method PostDescription(i: nat, ghost cfg: Config<T>, ghost before: seq<Msg>)
      requires Models(cfg, before) && i < p && ctl == Control(calls, true, PostSend, i)
      modifies this`memory, this`sends, this`recvs, this`ctl
      ensures Models(cfg, before) && ctl == NextPass(cfg, old(ctl).(stage := PostRecv), PostSend, Exchange)
      ensures memory == old(memory)[SendBuf(i) := Described(Describe(cfg, rank, i, calls))]
      ensures sends == old(sends) + [(rank, i)] && recvs == old(recvs) + [(i, rank)]
    {
      Offer(i, cfg, before);
      Ask(i, cfg, before);
    }

    /** Offers a description to every rank and asks every rank for its own. */
    method PostDescriptions(ghost cfg: Config<T>, ghost before: seq<Msg>)
      requires Models(cfg, before) && ctl == Control(calls, true, PostSend, 0)
      modifies this`memory, this`sends, this`recvs, this`ctl
      ensures Models(cfg, before) && ctl == Control(calls, true, Exchange, 0)
      ensures forall i :: 0 <= i < p ==>
                            SendBuf(i) in memory && memory[SendBuf(i)] == Described(Describe(cfg, rank, i, calls))
      ensures sends == old(sends) + seq(p, (i: nat) => (rank, i))
      ensures recvs == old(recvs) + seq(p, (i: nat) => (i, rank))
    {
      Posts(cfg, before, sends, recvs);
    }

    /** The descriptions for the first `i` ranks have been offered, and theirs asked for. */
    ghost predicate Posting(i: nat, cfg: Config<T>, before: seq<Msg>, sends0: seq<(nat, nat)>, recvs0: seq<(nat, nat)>)
      reads this
    {
      && Models(cfg, before) && i <= p
      && ctl == (if i < p then Control(calls, true, PostSend, i) else Control(calls, true, Exchange, 0))
      && sends == sends0 + seq(i, (j: nat) => (rank, j)) && recvs == recvs0 + seq(i, (j: nat) => (j, rank))
    }

    method PostNext(i: nat, ghost cfg: Config<T>, ghost before: seq<Msg>, ghost sends0: seq<(nat, nat)>,
                    ghost recvs0: seq<(nat, nat)>)
      requires i < p && Posting(i, cfg, before, sends0, recvs0)
      modifies this`memory, this`sends, this`recvs, this`ctl
      ensures Posting(i + 1, cfg, before, sends0, recvs0)
    {
      PostDescription(i, cfg, before);
      assert seq(i + 1, (j: nat) => (rank, j)) == seq(i, (j: nat) => (rank, j)) + [(rank, i)];
      assert seq(i + 1, (j: nat) => (j, rank)) == seq(i, (j: nat) => (j, rank)) + [(i, rank)];
    }

    method Posts(ghost cfg: Config<T>, ghost before: seq<Msg>, ghost sends0: seq<(nat, nat)>,
                 ghost recvs0: seq<(nat, nat)>)
      requires Posting(0, cfg, before, sends0, recvs0)
      modifies this`memory, this`sends, this`recvs, this`ctl
      ensures Posting(p, cfg, before, sends0, recvs0)
    {
      for i := 0 to p
        invariant Posting(i, cfg, before, sends0, recvs0)
      {
        PostNext(i, cfg, before, sends0, recvs0);
      }
    }

    /** context.write of block `i` to the target part `d`; false where it throws. */
    method WriteBlock(i: nat, d: BufferDescription) returns (ok: bool)
      requires i < |localSources|
      modifies this`posted
      ensures ok <==> localSources[i].size <= d.size
      ensures posted
              == old(posted) + if ok then [WriteTo(rank, localSources[i].offset, localSources[i].size, d)] else []
    {
      var offset, size := localSources[i].offset, localSources[i].size;
      if size == 0 {
        posted := posted + [Notify(d.rank, Data(d.notificationId))];
        return true;
      }
      if size > d.size { return false; }
      posted := posted
                + [Write(rank, Part(Source, offset, size), d.rank, Part(Target, d.offset, size),
                         Data(d.notificationId))];
      return true;
    }

    /** Second loop, one pass: waits for rank i's description and writes the block it describes. */
    method ExchangePass(i: nat, arrivals: seq<Arrival>, ghost cfg: Config<T>, ghost before: seq<Msg>)
      returns (raised: bool, ok: bool, rest: seq<Arrival>)
      requires Models(cfg, before) && i < p && ctl == Control(calls, true, Exchange, i) && Genuine(cfg, arrivals)
      modifies this`notes, this`memory, this`posted, this`ctl
      ensures Models(cfg, before) && Genuine(cfg, rest)
      ensures Waited(raised, notes, Slots(rest)) == AfterWait(Got(i), old(notes), Slots(arrivals))
      ensures (ok <==> raised && Fits(cfg, rank, i, calls)) && (!raised ==> Stuck())
      ensures ctl == if ok then NextPass(cfg, old(ctl), Exchange, Collect)
                     else if raised then old(ctl).(stage := Thrown) else old(ctl)
      ensures forall c :: c in old(memory) && !c.RecvBuf? ==> c in memory && memory[c] == old(memory)[c]
      ensures raised ==>
                Advance(cfg, rank, old(ctl), Process(memory, notes + {Got(i)}))
                == Outcome(ctl, View(), if ok then [Carried(cfg, rank, i, calls)] else [])
      ensures posted == old(posted) + if ok then [Carried(cfg, rank, i, calls)] else []
    {
      raised, rest := WaitFor(Got(i), arrivals, cfg);
      ok := false;
      if raised {
        ok := WriteDescribed(i, cfg, before);
      }
    }

    /** The rest of the pass, once the description is there. */
    method WriteDescribed(i: nat, ghost cfg: Config<T>, ghost before: seq<Msg>) returns (ok: bool)
      requires Models(cfg, before) && i < p && ctl == Control(calls, true, Exchange, i)
      requires memory[RecvBuf(i)] == Described(Describe(cfg, i, rank, calls)) && Got(i) !in notes
      modifies this`posted, this`ctl
      ensures Models(cfg, before) && (ok <==> Fits(cfg, rank, i, calls))
      ensures ctl == if ok then NextPass(cfg, old(ctl), Exchange, Collect) else old(ctl).(stage := Thrown)
      ensures Advance(cfg, rank, old(ctl), Process(memory, notes + {Got(i)}))
              == Outcome(ctl, View(), if ok then [Carried(cfg, rank, i, calls)] else [])
      ensures posted == old(posted) + if ok then [Carried(cfg, rank, i, calls)] else []
    {
      ExchangeStep(cfg, rank, ctl, Process(memory, notes + {Got(i)}));
      assert cfg.ValidCall(rank, calls);
      ok := WriteBlock(i, memory[RecvBuf(i)].description);
      ctl := if ok then NextPass(cfg, ctl, Exchange, Collect) else ctl.(stage := Thrown);
    }

    /** Third loop, one pass: waits for rank i's block and acknowledges it. */
    method CollectPass(i: nat, arrivals: seq<Arrival>, ghost cfg: Config<T>, ghost before: seq<Msg>)
      returns (raised: bool, rest: seq<Arrival>)
      requires Models(cfg, before) && i < p && ctl == Control(calls, true, Collect, i) && Genuine(cfg, arrivals)
      modifies this`notes, this`memory, this`posted, this`ctl
      ensures Models(cfg, before) && Genuine(cfg, rest)
      ensures Waited(raised, notes, Slots(rest)) == AfterWait(Data(i), old(notes), Slots(arrivals))
      ensures ctl == if raised then NextPass(cfg, old(ctl), Collect, WaitAck) else old(ctl)
      ensures !raised ==> Stuck()
      ensures forall c :: c in old(memory) && !c.RecvBuf? ==> c in memory && memory[c] == old(memory)[c]
      ensures raised ==>
                Advance(cfg, rank, old(ctl), Process(memory, notes + {Data(i)}))
                == Outcome(ctl, View(), [Notify(i, Ack(rank))])
      ensures posted == old(posted) + if raised then [Notify(i, Ack(rank))] else []
    {
      raised, rest := WaitFor(Data(i), arrivals, cfg);
      if raised { Acknowledge(i, cfg, before); }
    }

    /** The rest of the pass, once the block is there. */
    method Acknowledge(i: nat, ghost cfg: Config<T>, ghost before: seq<Msg>)
      requires Models(cfg, before) && i < p && ctl == Control(calls, true, Collect, i) && Data(i) !in notes
      modifies this`posted, this`ctl
      ensures Models(cfg, before) && ctl == NextPass(cfg, old(ctl), Collect, WaitAck)
      ensures Advance(cfg, rank, old(ctl), Process(memory, notes + {Data(i)}))
              == Outcome(ctl, View(), [Notify(i, Ack(rank))])
      ensures posted == old(posted) + [Notify(i, Ack(rank))]
    {
      CollectStep(cfg, rank, ctl, Process(memory, notes + {Data(i)}));
      posted := posted + [Notify(i, Ack(rank))];
      ctl := NextPass(cfg, ctl, Collect, WaitAck);
    }

    /** Last loop, one pass: waits until rank i has this rank's block and its description has left. */
    method FinishPass(i: nat, arrivals: seq<Arrival>, ghost cfg: Config<T>, ghost before: seq<Msg>)
      returns (raised: bool, rest: seq<Arrival>)
      requires Models(cfg, before) && i < p && ctl == Control(calls, true, WaitAck, i) && Genuine(cfg, arrivals)
      modifies this`notes, this`memory, this`ctl
      ensures Models(cfg, before) && Genuine(cfg, rest)
      ensures Waited(raised, notes, Slots(rest)) == AfterWaits([Ack(i), Sent(i)], old(notes), Slots(arrivals))
      ensures if raised then ctl == NextPass(cfg, old(ctl), WaitAck, Return)
              else Stuck() && (ctl == old(ctl) || ctl == old(ctl).(stage := WaitSent))
      ensures forall c :: c in old(memory) && !c.RecvBuf? ==> c in memory && memory[c] == old(memory)[c]
      ensures raised ==>
                Advance(cfg, rank, old(ctl).(stage := WaitSent), Process(memory, notes + {Sent(i)}))
                == Outcome(ctl, View(), [])
    {
      TwoWaits(Ack(i), Sent(i), notes, Slots(arrivals));
      raised, rest := AwaitAck(i, arrivals, cfg, before);
      if raised {
        raised, rest := AwaitSent(i, rest, cfg, before);
      }
    }

    /** Waits until rank i has this rank's block. */
    method AwaitAck(i: nat, arrivals: seq<Arrival>, ghost cfg: Config<T>, ghost before: seq<Msg>)
      returns (raised: bool, rest: seq<Arrival>)
      requires Models(cfg, before) && i < p && ctl == Control(calls, true, WaitAck, i) && Genuine(cfg, arrivals)
      modifies this`notes, this`memory, this`ctl
      ensures Models(cfg, before) && Genuine(cfg, rest)
      ensures forall c :: c in old(memory) && !c.RecvBuf? ==> c in memory && memory[c] == old(memory)[c]
      ensures Waited(raised, notes, Slots(rest)) == AfterWait(Ack(i), old(notes), Slots(arrivals)) && Ack(i) !in notes
      ensures ctl == if raised then old(ctl).(stage := WaitSent) else old(ctl)
      ensures raised ==>
                Advance(cfg, rank, old(ctl), Process(memory, notes + {Ack(i)})) == Outcome(ctl, View(), [])
    {
      raised, rest := WaitFor(Ack(i), arrivals, cfg);
      if raised {
        AckStep(cfg, rank, ctl, Process(memory, notes + {Ack(i)}));
        ctl := ctl.(stage := WaitSent);
      }
    }

    /** Waits until the description for rank i has left. */
    method AwaitSent(i: nat, arrivals: seq<Arrival>, ghost cfg: Config<T>, ghost before: seq<Msg>)
      returns (raised: bool, rest: seq<Arrival>)
      requires Models(cfg, before) && i < p && ctl == Control(calls, true, WaitSent, i) && Genuine(cfg, arrivals)
      modifies this`notes, this`memory, this`ctl
      ensures Models(cfg, before) && Genuine(cfg, rest)
      ensures forall c :: c in old(memory) && !c.RecvBuf? ==> c in memory && memory[c] == old(memory)[c]
      ensures Waited(raised, notes, Slots(rest)) == AfterWait(Sent(i), old(notes), Slots(arrivals)) && Sent(i) !in notes
      ensures ctl == if raised then NextPass(cfg, old(ctl), WaitAck, Return) else old(ctl)
      ensures raised ==>
                Advance(cfg, rank, old(ctl), Process(memory, notes + {Sent(i)})) == Outcome(ctl, View(), [])
    {
      raised, rest := WaitFor(Sent(i), arrivals, cfg);
      if raised {
        SentStep(cfg, rank, ctl, Process(memory, notes + {Sent(i)}));
        ctl := NextPass(cfg, ctl, WaitAck, Return);
      }
    }

    /** One pass of the second loop, as a wait of the call. */
    method ExchangeNext(i: nat, arrivals: seq<Arrival>, ghost cfg: Config<T>, ghost before: seq<Msg>,
                        ghost notes0: set<Slot>, ghost arrivals0: seq<Arrival>)
      returns (end: End, rest: seq<Arrival>)
      requires Models(cfg, before) && i < p && ctl == Control(calls, true, Exchange, i) && Genuine(cfg, arrivals)
      requires FirstMisfit(cfg, rank, calls, 0) == FirstMisfit(cfg, rank, calls, i)
      requires HasWaited(WaitsBehind(p, ctl), notes0, arrivals0, arrivals, true)
      modifies this`notes, this`memory, this`posted, this`ctl
      ensures Models(cfg, before) && Genuine(cfg, rest)
      ensures end.Returned? ==>
                && ctl == NextPass(cfg, old(ctl), Exchange, Collect)
                && FirstMisfit(cfg, rank, calls, 0) == FirstMisfit(cfg, rank, calls, i + 1)
      ensures end.Threw? ==> ctl == Control(calls, true, Thrown, i) && i == FirstMisfit(cfg, rank, calls, 0)
      ensures end.Waiting? ==> ctl == old(ctl) && Stuck()
      ensures var n := if end.Returned? then WaitsBehind(p, ctl) else WaitCount(cfg, rank, calls);
              HasWaited(n, notes0, arrivals0, rest, !end.Waiting?)
    {
      NextWaits(cfg, ctl);
      NextWaitEnds(p, i, WaitCount(cfg, rank, calls), notes0, Slots(arrivals0), notes, Slots(arrivals));
      var raised, ok;
      raised, ok, rest := ExchangePass(i, arrivals, cfg, before);
      end := if ok then Returned else if raised then Threw else Waiting;
    }

    /** Second loop; it does not return if a block does not fit or the arrivals run out. */
    method ExchangeBlocks(arrivals: seq<Arrival>, ghost cfg: Config<T>, ghost before: seq<Msg>)
      returns (end: End, rest: seq<Arrival>)
      requires Models(cfg, before) && ctl == Control(calls, true, Exchange, 0) && Genuine(cfg, arrivals)
      modifies this`notes, this`memory, this`posted, this`ctl
      ensures Models(cfg, before) && Genuine(cfg, rest)
      ensures end.Returned? ==> FirstMisfit(cfg, rank, calls, 0) == p && ctl == Control(calls, true, Collect, 0)
      ensures end.Threw? ==> ctl == Control(calls, true, Thrown, FirstMisfit(cfg, rank, calls, 0))
      ensures end.Waiting? ==> ctl.inside && ctl.stage.Exchange? && Stuck()
      ensures var n := if end.Returned? then WaitsBehind(p, ctl) else WaitCount(cfg, rank, calls);
              HasWaited(n, old(notes), arrivals, rest, !end.Waiting?)
    {
      rest := arrivals;
      for i := 0 to p
        invariant Models(cfg, before) && Genuine(cfg, rest)
        invariant ctl == if i < p then Control(calls, true, Exchange, i) else Control(calls, true, Collect, 0)
        invariant FirstMisfit(cfg, rank, calls, 0) == FirstMisfit(cfg, rank, calls, i)
        invariant HasWaited(WaitsBehind(p, ctl), old(notes), arrivals, rest, true)
      {
        end, rest := ExchangeNext(i, rest, cfg, before, old(notes), arrivals);
        if !end.Returned? { return; }
      }
      end := Returned;
    }

    /** One pass of the third loop, and of the last one, as waits of the call. */
    method CollectNext(i: nat, arrivals: seq<Arrival>, ghost cfg: Config<T>, ghost before: seq<Msg>,
                       ghost notes0: set<Slot>, ghost arrivals0: seq<Arrival>)
      returns (raised: bool, rest: seq<Arrival>)
      requires Models(cfg, before) && i < p && ctl == Control(calls, true, Collect, i) && Genuine(cfg, arrivals)
      requires HasWaited(WaitsBehind(p, ctl), notes0, arrivals0, arrivals, true)
      modifies this`notes, this`memory, this`posted, this`ctl
      ensures Models(cfg, before) && Genuine(cfg, rest)
      ensures ctl == (if raised then NextPass(cfg, old(ctl), Collect, WaitAck) else old(ctl)) && (!raised ==> Stuck())
      ensures HasWaited(if raised then WaitsBehind(p, ctl) else 4 * p, notes0, arrivals0, rest, raised)
    {
      NextWaits(cfg, ctl);
      NextWaitEnds(p, WaitsBehind(p, ctl), 4 * p, notes0, Slots(arrivals0), notes, Slots(arrivals));
      raised, rest := CollectPass(i, arrivals, cfg, before);
    }

    method FinishNext(i: nat, arrivals: seq<Arrival>, ghost cfg: Config<T>, ghost before: seq<Msg>,
                      ghost notes0: set<Slot>, ghost arrivals0: seq<Arrival>)
      returns (raised: bool, rest: seq<Arrival>)
      requires Models(cfg, before) && i < p && ctl == Control(calls, true, WaitAck, i) && Genuine(cfg, arrivals)
      requires HasWaited(WaitsBehind(p, ctl), notes0, arrivals0, arrivals, true)
      modifies this`notes, this`memory, this`ctl
      ensures Models(cfg, before) && Genuine(cfg, rest)
      ensures if raised then ctl == NextPass(cfg, old(ctl), WaitAck, Return)
              else Stuck() && (ctl == old(ctl) || ctl == old(ctl).(stage := WaitSent))
      ensures HasWaited(if raised then WaitsBehind(p, ctl) else 4 * p, notes0, arrivals0, rest, raised)
    {
      ghost var n := WaitsBehind(p, ctl);
      NextWaits(cfg, ctl);
      LastWaitsEnd(p, i, n, notes0, Slots(arrivals0), notes, Slots(arrivals));
      raised, rest := FinishPass(i, arrivals, cfg, before);
    }

    /** Third loop; false if the arrivals run out. */
    method CollectBlocks(arrivals: seq<Arrival>, ghost cfg: Config<T>, ghost before: seq<Msg>,
                         ghost notes0: set<Slot>, ghost arrivals0: seq<Arrival>)
      returns (finished: bool, rest: seq<Arrival>)
      requires Models(cfg, before) && ctl == Control(calls, true, Collect, 0) && Genuine(cfg, arrivals)
      requires HasWaited(WaitsBehind(p, ctl), notes0, arrivals0, arrivals, true)
      modifies this`notes, this`memory, this`posted, this`ctl
      ensures Models(cfg, before) && Genuine(cfg, rest)
      ensures if finished then ctl == Control(calls, true, WaitAck, 0) else ctl.inside && ctl.stage.Collect? && Stuck()
      ensures HasWaited(if finished then WaitsBehind(p, ctl) else 4 * p, notes0, arrivals0, rest, finished)
    {
      rest := arrivals;
      for i := 0 to p
        invariant Models(cfg, before) && Genuine(cfg, rest)
        invariant ctl == if i < p then Control(calls, true, Collect, i) else Control(calls, true, WaitAck, 0)
        invariant HasWaited(WaitsBehind(p, ctl), notes0, arrivals0, rest, true)
      {
        finished, rest := CollectNext(i, rest, cfg, before, notes0, arrivals0);
        if !finished { return; }
      }
      finished := true;
    }

    /** Last loop; false if the arrivals run out. */
    method FinishBlocks(arrivals: seq<Arrival>, ghost cfg: Config<T>, ghost before: seq<Msg>,
                        ghost notes0: set<Slot>, ghost arrivals0: seq<Arrival>)
      returns (finished: bool, rest: seq<Arrival>)
      requires Models(cfg, before) && ctl == Control(calls, true, WaitAck, 0) && Genuine(cfg, arrivals)
      requires HasWaited(WaitsBehind(p, ctl), notes0, arrivals0, arrivals, true)
      modifies this`notes, this`memory, this`ctl
      ensures Models(cfg, before) && Genuine(cfg, rest)
      ensures if finished then ctl == Control(calls, true, Return, 0)
              else ctl.inside && (ctl.stage.WaitAck? || ctl.stage.WaitSent?) && Stuck()
      ensures HasWaited(4 * p, notes0, arrivals0, rest, finished)
    {
      rest := arrivals;
      for i := 0 to p
        invariant Models(cfg, before) && Genuine(cfg, rest)
        invariant ctl == if i < p then Control(calls, true, WaitAck, i) else Control(calls, true, Return, 0)
        invariant HasWaited(WaitsBehind(p, ctl), notes0, arrivals0, rest, true)
      {
        finished, rest := FinishNext(i, rest, cfg, before, notes0, arrivals0);
        if !finished { return; }
      }
      finished := true;
    }

    /** Enters the call with its buffers, and describes their blocks. */
    method Begin(source: seq<T>, sourceSizes: seq<nat>, target: seq<T>, targetSizes: seq<nat>, ghost cfg: Config<T>)
      requires Ready(cfg, []) && Passed(cfg, source, sourceSizes, target, targetSizes)
      modifies this`memory, this`localSources, this`localTargets, this`ctl
      ensures ctl == old(ctl).(inside := true) && Describes(cfg) && Allocated(cfg, View()) && Informed(cfg)
      ensures Outcome(ctl, View(), []) == Enter(cfg, rank, old(ctl), old(View()))
    {
      assert cfg.ValidCall(rank, calls);
      var ids := seq(p, (i: nat) => i);
      localSources := DescribeBlocks(rank, sourceSegment, 0, sourceSizes, ids);
      localTargets := DescribeBlocks(rank, targetSegment, 0, targetSizes, ids);
      memory := memory[Source := Flat(source)][Target := Flat(target)];
      ctl := ctl.(inside := true);
    }

    /** The loops that wait, in order. */
    method WaitingLoops(arrivals: seq<Arrival>, ghost cfg: Config<T>, ghost before: seq<Msg>)
      returns (end: End, rest: seq<Arrival>)
      requires Models(cfg, before) && ctl == Control(calls, true, Exchange, 0) && Genuine(cfg, arrivals)
      modifies this`notes, this`memory, this`posted, this`ctl
      ensures Models(cfg, before) && Genuine(cfg, rest) && ctl.inside && (end.Returned? <==> ctl.stage.Return?)
      ensures end.Waiting? ==> Stuck()
      ensures end.Returned? ==> FirstMisfit(cfg, rank, calls, 0) == p
      ensures end.Threw? ==> ctl == Control(calls, true, Thrown, FirstMisfit(cfg, rank, calls, 0))
      ensures Over(cfg, rank, calls, old(notes), Slots(arrivals), Waited(!end.Waiting?, notes, Slots(rest)))
    {
      WaitsEnd(p, WaitCount(cfg, rank, calls), notes, Slots(arrivals));
      end, rest := ExchangeBlocks(arrivals, cfg, before);
      if end.Returned? {
        var finished;
        finished, rest := CollectBlocks(rest, cfg, before, old(notes), arrivals);
        if finished {
          finished, rest := FinishBlocks(rest, cfg, before, old(notes), arrivals);
        }
        end := if finished then Returned else Waiting;
      }
    }

    /** The return from the call. */
    method Leave(ghost cfg: Config<T>)
      requires cfg.Valid() && Allocated(cfg, View()) && ctl == Control(calls, true, Return, 0)
      modifies this`ctl, this`calls
      ensures Advance(cfg, rank, old(ctl), View()) == Outcome(ctl, View(), [])
      ensures ctl == Control(old(calls) + 1, false, PostSend, 0) && calls == old(calls) + 1
    {
      ctl := Control(calls + 1, false, PostSend, 0);
      calls := calls + 1;
    }

    lemma Done(cfg: Config<T>, before: seq<Msg>)
      requires Models(cfg, before) && ctl.inside && !ctl.stage.PostSend? && !ctl.stage.PostRecv?
      ensures before <= posted && BlocksThenAcks(cfg, rank, calls, posted[|before|..])
      ensures |posted| == |before| + match ctl.stage
                                     case Exchange => ctl.i
                                     case Thrown => ctl.i
                                     case Collect => p + ctl.i
                                     case _ => 2 * p
    {
      SoFarIs(cfg, rank, ctl);
      assert posted[|before|..] == SoFar(cfg, rank, ctl);
    }

    /** The call up to its waits. */
    method Open(source: seq<T>, sourceSizes: seq<nat>, target: seq<T>, targetSizes: seq<nat>, ghost cfg: Config<T>)
      requires Ready(cfg, []) && Passed(cfg, source, sourceSizes, target, targetSizes)
      modifies this`memory, this`localSources, this`localTargets, this`ctl, this`sends, this`recvs
      ensures Models(cfg, posted) && ctl == Control(calls, true, Exchange, 0)
      ensures sends == old(sends) + seq(p, (i: nat) => (rank, i))
      ensures recvs == old(recvs) + seq(p, (i: nat) => (i, rank))
    {
      Begin(source, sourceSizes, target, targetSizes, cfg);
      assert posted + [] == posted;
      PostDescriptions(cfg, posted);
    }

    /** The waiting loops, and what the call has posted and holds then. */
    method Wait(arrivals: seq<Arrival>, ghost cfg: Config<T>, ghost before: seq<Msg>)
      returns (end: End, rest: seq<Arrival>)
      requires Models(cfg, before) && ctl == Control(calls, true, Exchange, 0) && Genuine(cfg, arrivals)
      modifies this`notes, this`memory, this`posted, this`ctl
      ensures Over(cfg, rank, calls, old(notes), Slots(arrivals), Waited(!end.Waiting?, notes, Slots(rest)))
      ensures !end.Waiting? <==> Needed(p, FirstMisfit(cfg, rank, calls, 0), old(notes), Slots(arrivals))
      ensures Ended(cfg, end) && HasSent(cfg, before, end)
      ensures Holds(cfg, rank, calls, memory, p) && Allocated(cfg, View())
    {
      end, rest := WaitingLoops(arrivals, cfg, before);
      OverIs(cfg, rank, calls, old(notes), Slots(arrivals), Waited(!end.Waiting?, notes, Slots(rest)));
      Done(cfg, before);
    }

    /** Where the call has come to when it is over, or waits. */
    ghost predicate Ended(cfg: Config<T>, end: End)
      reads this`ctl, this`calls, this`notes
      requires cfg.Valid() && rank < cfg.p
    {
      && ctl.inside && ctl.calls == calls && ControlOk(cfg, ctl) && (end.Returned? <==> ctl.stage.Return?)
      && (end.Returned? ==> FirstMisfit(cfg, rank, calls, 0) == cfg.p)
      && (end.Threw? ==> ctl == Control(calls, true, Thrown, FirstMisfit(cfg, rank, calls, 0)))
      && (end.Waiting? ==> Stuck())
    }

    /** What the call has posted since `before`. */
    ghost predicate HasSent(cfg: Config<T>, before: seq<Msg>, end: End)
      reads this`ctl, this`calls, this`posted
      requires cfg.Valid() && rank < cfg.p
    {
      && before <= posted
      && var sent := posted[|before|..];
      && |sent| == (if end.Returned? then 2 * cfg.p
                    else if ctl.stage.Exchange? || ctl.stage.Thrown? then ctl.i
                    else if ctl.stage.Collect? then cfg.p + ctl.i else 2 * cfg.p)
      && BlocksThenAcks(cfg, rank, calls, sent)
    }

    /** The end of a call that is over. */
    method Close(end: End, ghost cfg: Config<T>, ghost before: seq<Msg>)
      requires cfg.Valid() && cfg.p == p && rank < p && Allocated(cfg, View()) && Ended(cfg, end)
      requires HasSent(cfg, before, end)
      modifies this`ctl, this`calls
      ensures if end.Returned? then ctl == Control(old(calls) + 1, false, PostSend, 0) && calls == old(calls) + 1
              else ctl == old(ctl) && calls == old(calls)
      ensures before <= posted
      ensures var sent := posted[|before|..];
              && |sent| == (if end.Returned? then 2 * p
                            else if ctl.stage.Exchange? || ctl.stage.Thrown? then ctl.i
                            else if ctl.stage.Collect? then p + ctl.i else 2 * p)
              && forall j :: 0 <= j < |sent| ==>
                               sent[j] == if j < p then Carried(cfg, rank, j, old(calls)) else Notify(j - p, Ack(rank))
    {
      if end.Returned? { Leave(cfg); }
    }

    /** The call up to its return. */
    method Loops(source: seq<T>, sourceSizes: seq<nat>, target: seq<T>, targetSizes: seq<nat>,
                 arrivals: seq<Arrival>, ghost cfg: Config<T>)
      returns (end: End, rest: seq<Arrival>)
      requires Ready(cfg, arrivals) && Passed(cfg, source, sourceSizes, target, targetSizes)
      modifies this`memory, this`localSources, this`localTargets, this`ctl, this`sends, this`recvs, this`notes
      modifies this`posted
      ensures Over(cfg, rank, calls, old(notes), Slots(arrivals), Waited(!end.Waiting?, notes, Slots(rest)))
      ensures !end.Waiting? <==> Needed(p, FirstMisfit(cfg, rank, calls, 0), old(notes), Slots(arrivals))
      ensures Ended(cfg, end) && HasSent(cfg, old(posted), end)
      ensures Holds(cfg, rank, calls, memory, p) && Allocated(cfg, View())
      ensures sends == old(sends) + seq(p, (i: nat) => (rank, i))
      ensures recvs == old(recvs) + seq(p, (i: nat) => (i, rank))
    {
      Open(source, sourceSizes, target, targetSizes, cfg);
      end, rest := Wait(arrivals, cfg, posted);
    }

    /** One call.  It returns after writing exactly one block to every rank and then acknowledging exactly
        one block of every rank; it throws at the first block that does not fit; it is over if and
        only if all notifications it waits for until then are raised or will be.  While it waits, it
        has posted exactly the transfers before that wait.  It touches neither the source nor the
        target: the blocks that land there are the machine's deliveries. */
    method Call(source: seq<T>, sourceSizes: seq<nat>, target: seq<T>, targetSizes: seq<nat>,
                arrivals: seq<Arrival>, ghost cfg: Config<T>)
      returns (end: End, rest: seq<Arrival>)
      requires Ready(cfg, arrivals) && Passed(cfg, source, sourceSizes, target, targetSizes)
      modifies this
      ensures Over(cfg, rank, old(calls), old(notes), Slots(arrivals), Waited(!end.Waiting?, notes, Slots(rest)))
      ensures var f, slots := FirstMisfit(cfg, rank, old(calls), 0), Slots(arrivals);
              !end.Waiting? <==>
              if f < p then forall j :: 0 <= j <= f ==> Got(j) in old(notes) || Got(j) in slots
              else forall j :: 0 <= j < p ==>
                                 && (Got(j) in old(notes) || Got(j) in slots)
                                 && (Data(j) in old(notes) || Data(j) in slots)
                                 && (Ack(j) in old(notes) || Ack(j) in slots)
                                 && (Sent(j) in old(notes) || Sent(j) in slots)
      ensures end.Returned? ==>
                && FirstMisfit(cfg, rank, old(calls), 0) == p
                && ctl == Control(old(calls) + 1, false, PostSend, 0) && calls == old(calls) + 1
      ensures !end.Returned? ==> ctl.inside && ctl.calls == calls == old(calls) && ControlOk(cfg, ctl)
      ensures end.Threw? ==> ctl == Control(calls, true, Thrown, FirstMisfit(cfg, rank, calls, 0)) && ctl.i < p
      ensures end.Waiting? ==>
                match ctl.stage
                case Exchange => Got(ctl.i) !in notes
                case Collect => Data(ctl.i) !in notes
                case WaitAck => Ack(ctl.i) !in notes
                case WaitSent => Sent(ctl.i) !in notes
                case _ => false
      ensures old(posted) <= posted
      ensures var sent := posted[|old(posted)|..];
              && |sent| == (if end.Returned? then 2 * p
                            else if ctl.stage.Exchange? || ctl.stage.Thrown? then ctl.i
                            else if ctl.stage.Collect? then p + ctl.i else 2 * p)
              && forall j :: 0 <= j < |sent| ==>
                               sent[j] == if j < p then Carried(cfg, rank, j, old(calls)) else Notify(j - p, Ack(rank))
      ensures sends == old(sends) + seq(p, (i: nat) => (rank, i))
      ensures recvs == old(recvs) + seq(p, (i: nat) => (i, rank))
      ensures Source in memory && memory[Source] == Flat(source) && Target in memory && memory[Target] == Flat(target)
      ensures forall i :: 0 <= i < p ==>
                            && SendBuf(i) in memory
                            && memory[SendBuf(i)] == Described(Describe(cfg, rank, i, old(calls)))
    {
      end, rest := Loops(source, sourceSizes, target, targetSizes, arrivals, cfg);
      Close(end, cfg, old(posted));
    }
  }
}
