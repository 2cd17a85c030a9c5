/** Alltoallv over any number of calls: what is posted is consumed before it is posted again, every
    call transposes its inputs where the sizes at the two ends agree, a rank that returns has nothing
    pending, and no state is stuck unless a block was too large for its target. */
module AlltoallvTheorems {
  import opened Transport
  import opened Alltoallv
  import opened Descriptions
  import opened PrefixSums

  // ----- positions and counts -----

  function B(b: bool): nat {
    if b then 1 else 0
  }

  /** Position inside a call. */
  function Position<T>(cfg: Config<T>, ctl: Control): nat {
    match ctl.stage
    case PostSend => 2 * ctl.i
    case PostRecv => 2 * ctl.i + 1
    case Exchange => 2 * cfg.p + ctl.i
    case Thrown => 2 * cfg.p + ctl.i
    case Collect => 3 * cfg.p + ctl.i
    case WaitAck => 4 * cfg.p + 2 * ctl.i
    case WaitSent => 4 * cfg.p + 2 * ctl.i + 1
    case Return => 6 * cfg.p
  }

  /** How often rank `r` has gone past position `q` of a call. */
  ghost function Passed<T>(cfg: Config<T>, s: State<T>, r: nat, q: nat): nat
    requires r < |s.ctl|
  {
    s.ctl[r].calls + B(s.ctl[r].inside && Position(cfg, s.ctl[r]) > q)
  }

  /** How often it has consumed the notification it waits for there: a rank that throws has done so
      without going past. */
  ghost function Taken<T>(cfg: Config<T>, s: State<T>, r: nat, q: nat): nat
    requires r < |s.ctl|
  {
    Passed(cfg, s, r, q) + B(s.ctl[r].stage.Thrown? && Position(cfg, s.ctl[r]) == q)
  }

  /** How many descriptions of `i` for `j` have been offered, asked for, and matched. */
  ghost function Offered<T>(cfg: Config<T>, s: State<T>, i: nat, j: nat): nat
    requires i < |s.ctl|
  {
    Passed(cfg, s, i, 2 * j)
  }

  ghost function Asked<T>(cfg: Config<T>, s: State<T>, i: nat, j: nat): nat
    requires j < |s.ctl|
  {
    Passed(cfg, s, j, 2 * i + 1)
  }

  ghost function Matched<T>(cfg: Config<T>, s: State<T>, i: nat, j: nat): int
    requires i < |s.ctl|
  {
    Offered(cfg, s, i, j) - B((i, j) in s.sends)
  }

  ghost predicate MatchedAt<T>(cfg: Config<T>, s: State<T>, i: nat, j: nat)
    requires Shape(cfg, s) && i < cfg.p && j < cfg.p
  {
    Matched(cfg, s, i, j) == Asked(cfg, s, i, j) - B((i, j) in s.recvs)
  }

  function Acked(i: nat, j: nat): Msg { Notify(i, Ack(j)) }

  /** What may be under way: a block only of the call that its receiver is in. */
  ghost predicate Legitimate<T>(cfg: Config<T>, s: State<T>, t: Msg)
    requires cfg.Valid() && |s.ctl| == cfg.p
  {
    && t.dst < cfg.p && t.slot.j < cfg.p
    && match t.slot
       case Got(i) => t == SendDescription(i, t.dst)
       case Sent(j) => t == Notify(t.dst, Sent(j))
       case Data(i) => t == Carried(cfg, i, t.dst, s.ctl[t.dst].calls)
       case Ack(j) => t == Acked(t.dst, j)
  }

  /** How often a transfer has been posted, and how often consumed. */
  ghost function Posted<T>(cfg: Config<T>, s: State<T>, t: Msg): int
    requires cfg.Valid() && |s.ctl| == cfg.p && Legitimate(cfg, s, t)
  {
    match t.slot
    case Got(i) => Matched(cfg, s, i, t.dst)
    case Sent(j) => Matched(cfg, s, t.dst, j)
    case Data(i) => Passed(cfg, s, i, 2 * cfg.p + t.dst)
    case Ack(j) => Passed(cfg, s, j, 3 * cfg.p + t.dst)
  }

  function ConsumePosition<T>(cfg: Config<T>, slot: Slot): nat {
    match slot
    case Got(i) => 2 * cfg.p + i
    case Sent(j) => 4 * cfg.p + 2 * j + 1
    case Data(i) => 3 * cfg.p + i
    case Ack(j) => 4 * cfg.p + 2 * j
  }

  ghost predicate Balanced<T>(cfg: Config<T>, s: State<T>, t: Msg)
    requires Shape(cfg, s)
  {
    Legitimate(cfg, s, t) ==>
      InFlight(s.net, t) == Posted(cfg, s, t) - Taken(cfg, s, t.dst, ConsumePosition(cfg, t.slot))
  }

  ghost predicate Counts<T>(cfg: Config<T>, s: State<T>) {
    && Shape(cfg, s)
    && (forall t :: t in s.net.pending ==> Legitimate(cfg, s, t))
    && (forall t :: Balanced(cfg, s, t))
    && (forall i, j :: 0 <= i < cfg.p && 0 <= j < cfg.p ==> MatchedAt(cfg, s, i, j))
    && (forall e :: e in s.sends || e in s.recvs ==> e.0 < cfg.p && e.1 < cfg.p)
  }

  // ----- consequences of the counts -----

  /** The transfer of i's block in j's current call. */
  ghost function Current<T>(cfg: Config<T>, s: State<T>, i: nat, j: nat): Msg
    requires Shape(cfg, s) && i < cfg.p && j < cfg.p
  {
    Carried(cfg, i, j, s.ctl[j].calls)
  }

  /** The order of events between two ranks: i's k-th return follows j's k-th ack, which follows
      the arrival of i's k-th block, which follows j's k-th description for i. */
  lemma Order<T>(cfg: Config<T>, s: State<T>, i: nat, j: nat)
    requires Counts(cfg, s) && i < cfg.p && j < cfg.p
    ensures s.ctl[i].calls <= Passed(cfg, s, j, 3 * cfg.p + i) <= Passed(cfg, s, i, 2 * cfg.p + j)
    ensures Passed(cfg, s, i, 2 * cfg.p + j) <= Matched(cfg, s, j, i) <= Passed(cfg, s, j, 2 * i)
    ensures Passed(cfg, s, j, 2 * cfg.p + i) <= Matched(cfg, s, i, j) <= Passed(cfg, s, j, 2 * i + 1)
    ensures Passed(cfg, s, j, 3 * cfg.p + i) <= Passed(cfg, s, j, 2 * cfg.p + i)
  {
    assert Balanced(cfg, s, Acked(i, j));
    assert Balanced(cfg, s, Current(cfg, s, i, j));
    assert Balanced(cfg, s, SendDescription(j, i));
    assert Balanced(cfg, s, SendDescription(i, j));
    assert MatchedAt(cfg, s, i, j);
  }

  /** A notification is never raised twice before it is consumed. */
  lemma NoOverrun<T>(cfg: Config<T>, s: State<T>, t: Msg)
    requires Counts(cfg, s) && Legitimate(cfg, s, t)
    ensures InFlight(s.net, t) <= 1
  {
    assert Balanced(cfg, s, t);
    Order(cfg, s, t.dst, t.slot.j);
    Order(cfg, s, t.slot.j, t.dst);
  }

  lemma PendingAlone<T>(cfg: Config<T>, s: State<T>, t: Msg)
    requires Counts(cfg, s) && t in s.net.pending
    ensures Legitimate(cfg, s, t)
    ensures s.net.pending[t] == 1 && t.slot !in s.net.procs[t.dst].notes
    ensures Posted(cfg, s, t) == Taken(cfg, s, t.dst, ConsumePosition(cfg, t.slot)) + 1
  {
    NoOverrun(cfg, s, t);
    assert Balanced(cfg, s, t);
  }

  /** While a block is under way its sender is in the same call as its receiver, which has not
      collected it. */
  lemma BlockInFlight<T>(cfg: Config<T>, s: State<T>, i: nat, j: nat)
    requires Counts(cfg, s) && i < cfg.p && j < cfg.p && 0 < InFlight(s.net, Current(cfg, s, i, j))
    ensures s.ctl[i].inside && s.ctl[i].calls == s.ctl[j].calls && Position(cfg, s.ctl[i]) > 2 * cfg.p + j
    ensures s.ctl[j].inside && Position(cfg, s.ctl[j]) <= 3 * cfg.p + i
  {
    assert Balanced(cfg, s, Current(cfg, s, i, j));
    Order(cfg, s, i, j);
  }

  // ----- the blocks -----

  /** Rank i's source block for rank j. */
  ghost function Block<T>(cfg: Config<T>, i: nat, j: nat, k: nat): (b: seq<T>)
    requires cfg.Valid() && i < cfg.p && j < cfg.p
    ensures cfg.ValidCall(i, k) && |b| == cfg.sourceSizes(i, k)[j]
  {
    assert cfg.ValidCall(i, k);
    var offset := cfg.sourceOffsets(i, k)[j];
    cfg.input(i, k)[offset..offset + cfg.sourceSizes(i, k)[j]]
  }

  /** Block `j` of a buffer of consecutive blocks. */
  ghost function Slice<T>(sizes: seq<nat>, data: seq<T>, j: nat): (b: seq<T>)
    requires j < |sizes| && |data| == Sum(sizes, |sizes|)
    ensures |b| == sizes[j]
  {
    BlockInside(sizes, j);
    data[Sum(sizes, j)..Sum(sizes, j) + sizes[j]]
  }

  lemma BlockInside(sizes: seq<nat>, j: nat)
    requires j < |sizes|
    ensures Sum(sizes, j) + sizes[j] == Sum(sizes, j + 1) <= Sum(sizes, |sizes|)
  {
    SumMonotonic(sizes, j + 1, |sizes|);
  }

  /** Target block `j` of rank r's k-th call, before and after rank j's block has arrived: what a
      smaller block does not reach stays. */
  ghost function Before<T>(cfg: Config<T>, r: nat, j: nat, k: nat): (b: seq<T>)
    requires cfg.Valid() && r < cfg.p && j < cfg.p
    ensures cfg.ValidCall(r, k) && |b| == cfg.targetSizes(r, k)[j]
  {
    assert cfg.ValidCall(r, k);
    Slice(cfg.targetSizes(r, k), cfg.scratch(r, k), j)
  }

  ghost function After<T>(cfg: Config<T>, r: nat, j: nat, k: nat): (b: seq<T>)
    requires cfg.Valid() && r < cfg.p && j < cfg.p && Fits(cfg, j, r, k)
    ensures |b| == |Before(cfg, r, j, k)|
  {
    Block(cfg, j, r, k) + Before(cfg, r, j, k)[|Block(cfg, j, r, k)|..]
  }

  /** Block `i` of two buffers whose elements are related in this way. */
  lemma SliceOwn<T>(sizes: seq<nat>, data: seq<T>, data': seq<T>, i: nat, at: nat, piece: seq<T>)
    requires i < |sizes| && |data'| == |data| == Sum(sizes, |sizes|) && |piece| <= sizes[i]
    requires at == Sum(sizes, i) && at + sizes[i] <= |data|
    requires data'[at..at + sizes[i]] == piece + data[at..at + sizes[i]][|piece|..]
    ensures Slice(sizes, data', i) == piece + Slice(sizes, data, i)[|piece|..]
  {
    assert Slice(sizes, data', i) == data'[at..at + sizes[i]];
    assert Slice(sizes, data, i) == data[at..at + sizes[i]];
  }

  lemma SpliceOwn<T>(sizes: seq<nat>, data: seq<T>, i: nat, piece: seq<T>)
    requires i < |sizes| && |data| == Sum(sizes, |sizes|) && |piece| <= sizes[i]
    ensures Sum(sizes, i) + |piece| <= |data|
    ensures Slice(sizes, Splice(data, Sum(sizes, i), piece), i) == piece + Slice(sizes, data, i)[|piece|..]
  {
    BlockInside(sizes, i);
    SpliceInside(data, Sum(sizes, i), piece, sizes[i]);
    SliceOwn(sizes, data, Splice(data, Sum(sizes, i), piece), i, Sum(sizes, i), piece);
  }

  lemma SpliceOther<T>(sizes: seq<nat>, data: seq<T>, i: nat, piece: seq<T>, j: nat)
    requires i < |sizes| && j < |sizes| && j != i && |data| == Sum(sizes, |sizes|) && |piece| <= sizes[i]
    ensures Sum(sizes, i) + |piece| <= |data|
    ensures Slice(sizes, Splice(data, Sum(sizes, i), piece), j) == Slice(sizes, data, j)
  {
    BlockInside(sizes, i);
    BlockInside(sizes, j);
    PlacesApart(sizes, i, j);
    SpliceOutside(data, Sum(sizes, i), piece, Sum(sizes, j), sizes[j]);
  }

  /** A block written to its place: it is there, and the other blocks are as they were. */
  lemma SpliceSlice<T>(sizes: seq<nat>, data: seq<T>, i: nat, piece: seq<T>, j: nat)
    requires i < |sizes| && j < |sizes| && |data| == Sum(sizes, |sizes|) && |piece| <= sizes[i]
    ensures Sum(sizes, i) + |piece| <= |data|
    ensures Slice(sizes, Splice(data, Sum(sizes, i), piece), j)
            == if j == i then piece + Slice(sizes, data, i)[|piece|..] else Slice(sizes, data, j)
  {
    if j == i { SpliceOwn(sizes, data, i, piece); } else { SpliceOther(sizes, data, i, piece, j); }
  }

  lemma PlacesApart(sizes: seq<nat>, i: nat, j: nat)
    requires i < |sizes| && j < |sizes| && i != j
    ensures Sum(sizes, j) + sizes[j] <= Sum(sizes, i) || Sum(sizes, i) + sizes[i] <= Sum(sizes, j)
  {
    if j < i { BlocksApart(sizes, j, i); } else { BlocksApart(sizes, i, j); }
  }

  lemma SpliceInside<T>(data: seq<T>, at: nat, piece: seq<T>, size: nat)
    requires |piece| <= size && at + size <= |data|
    ensures Splice(data, at, piece)[at..at + size] == piece + data[at..at + size][|piece|..]
  {}

  lemma SpliceOutside<T>(data: seq<T>, at: nat, piece: seq<T>, from: nat, size: nat)
    requires at + |piece| <= |data| && from + size <= |data| && (from + size <= at || at + |piece| <= from)
    ensures Splice(data, at, piece)[from..from + size] == data[from..from + size]
  {}

  // ----- the contents -----

  /** The descriptions rank `r` has made in its current call, and the ones that have arrived. */
  ghost predicate DescriptionsAt<T>(cfg: Config<T>, s: State<T>, r: nat, j: nat)
    requires Shape(cfg, s) && r < cfg.p && j < cfg.p
  {
    var ctl, proc := s.ctl[r], s.net.procs[r];
    && (ctl.inside && Position(cfg, ctl) > 2 * j ==>
          proc.mem[SendBuf(j)] == Described(Describe(cfg, r, j, ctl.calls)))
    && (Got(j) in proc.notes ==> proc.mem[RecvBuf(j)] == Described(Describe(cfg, j, r, ctl.calls)))
  }

  /** The buffers of a call hold its arguments, but for the blocks that have arrived. */
  ghost predicate BuffersAt<T>(cfg: Config<T>, r: nat, ctl: Control, proc: Proc<T>)
    requires cfg.Valid() && r < cfg.p && Allocated(cfg, proc)
  {
    assert cfg.ValidCall(r, ctl.calls);
    && proc.mem[Source] == Flat(cfg.input(r, ctl.calls))
    && proc.mem[Target].Flat? && |proc.mem[Target].data| == Sum(cfg.targetSizes(r, ctl.calls), cfg.p)
  }

  ghost predicate Collected<T>(cfg: Config<T>, ctl: Control, proc: Proc<T>, j: nat) {
    Data(j) in proc.notes || Position(cfg, ctl) > 3 * cfg.p + j
  }

  ghost predicate TargetAt<T>(cfg: Config<T>, r: nat, ctl: Control, proc: Proc<T>, j: nat)
    requires cfg.Valid() && r < cfg.p && j < cfg.p && Allocated(cfg, proc) && BuffersAt(cfg, r, ctl, proc)
  {
    assert cfg.ValidCall(r, ctl.calls);
    var block := Slice(cfg.targetSizes(r, ctl.calls), proc.mem[Target].data, j);
    if Collected(cfg, ctl, proc, j) then Fits(cfg, j, r, ctl.calls) && block == After(cfg, r, j, ctl.calls)
    else block == Before(cfg, r, j, ctl.calls)
  }

  ghost predicate BlocksAt<T>(cfg: Config<T>, s: State<T>, r: nat, j: nat)
    requires Shape(cfg, s) && r < cfg.p && j < cfg.p
  {
    var ctl, proc := s.ctl[r], s.net.procs[r];
    ctl.inside ==> BuffersAt(cfg, r, ctl, proc) && TargetAt(cfg, r, ctl, proc, j)
  }

  /** Rank `r` has written its block for `j` as often as the block fitted; it throws where it did not. */
  ghost predicate WrittenAt<T>(cfg: Config<T>, s: State<T>, r: nat, j: nat)
    requires Shape(cfg, s) && r < cfg.p && j < cfg.p
  {
    && (forall k :: 0 <= k < Passed(cfg, s, r, 2 * cfg.p + j) ==> Fits(cfg, r, j, k))
    && (s.ctl[r].stage.Thrown? && s.ctl[r].i == j ==> !Fits(cfg, r, j, s.ctl[r].calls))
  }

  ghost predicate OutputAt<T>(cfg: Config<T>, s: State<T>, r: nat)
    requires Shape(cfg, s) && r < cfg.p
  {
    && |s.outs[r]| == s.ctl[r].calls
    && forall k :: 0 <= k < |s.outs[r]| ==> Delivered(cfg, r, k, s.outs[r][k])
  }

  /** The target buffer holds every rank's block for this rank at its place. */
  ghost predicate Delivered<T>(cfg: Config<T>, r: nat, k: nat, out: Value<T>)
    requires cfg.Valid() && r < cfg.p
  {
    assert cfg.ValidCall(r, k);
    && out.Flat? && |out.data| == Sum(cfg.targetSizes(r, k), cfg.p)
    && forall j :: 0 <= j < cfg.p ==>
                     Fits(cfg, j, r, k) && Slice(cfg.targetSizes(r, k), out.data, j) == After(cfg, r, j, k)
  }

  ghost predicate CellsAt<T>(cfg: Config<T>, s: State<T>, r: nat, j: nat)
    requires Shape(cfg, s) && r < cfg.p && j < cfg.p
  {
    DescriptionsAt(cfg, s, r, j) && BlocksAt(cfg, s, r, j) && WrittenAt(cfg, s, r, j)
  }

  ghost predicate ContentsAt<T>(cfg: Config<T>, s: State<T>, r: nat)
    requires Shape(cfg, s) && r < cfg.p
  {
    OutputAt(cfg, s, r) && forall j :: 0 <= j < cfg.p ==> CellsAt(cfg, s, r, j)
  }

  ghost predicate Inv<T>(cfg: Config<T>, s: State<T>) {
    Counts(cfg, s) && forall r :: 0 <= r < cfg.p ==> ContentsAt(cfg, s, r)
  }

  // ----- preservation of the counts -----

  lemma InitInv<T>(cfg: Config<T>, s: State<T>)
    requires Init(cfg, s)
    ensures Inv(cfg, s)
  {
    forall t ensures Balanced(cfg, s, t) {}
    forall i, j | 0 <= i < cfg.p && 0 <= j < cfg.p ensures MatchedAt(cfg, s, i, j) {}
    forall r | 0 <= r < cfg.p ensures ContentsAt(cfg, s, r) {
      forall j | 0 <= j < cfg.p ensures CellsAt(cfg, s, r, j) {}
    }
  }

  ghost function Consumed<T>(proc: Proc<T>, o: Outcome<T>): set<Slot> {
    proc.notes - o.proc.notes
  }

  predicate Climbs(ctl: Control, after: Control) {
    after != ctl && !after.stage.Thrown?
  }

  /** One action of a rank moves it exactly one position on, unless it throws. */
  ghost predicate MovesOne<T>(cfg: Config<T>, r: nat, ctl: Control, proc: Proc<T>)
    requires cfg.Valid() && ControlOk(cfg, ctl) && ctl.inside && Allocated(cfg, proc)
  {
    var o := Advance(cfg, r, ctl, proc);
    && ControlOk(cfg, o.ctl) && Allocated(cfg, o.proc)
    && (o.ctl == ctl ==> o.proc == proc && o.posts == [])
    && (o.ctl != ctl && o.ctl.stage.Thrown? ==> ctl.stage.Exchange? && o.ctl == ctl.(stage := Thrown))
    && (Climbs(ctl, o.ctl) ==>
          if o.ctl.inside then
            o.ctl.calls == ctl.calls && Position(cfg, o.ctl) == Position(cfg, ctl) + 1 <= 6 * cfg.p
          else o.ctl == Control(ctl.calls + 1, false, PostSend, 0) && ctl.stage.Return?)
  }

  lemma MovesOneExchange<T>(cfg: Config<T>, r: nat, ctl: Control, proc: Proc<T>)
    requires cfg.Valid() && ControlOk(cfg, ctl) && ctl.inside && Allocated(cfg, proc) && ctl.stage.Exchange?
    ensures MovesOne(cfg, r, ctl, proc)
  {}

  lemma MovesOneWait<T>(cfg: Config<T>, r: nat, ctl: Control, proc: Proc<T>)
    requires cfg.Valid() && ControlOk(cfg, ctl) && ctl.inside && Allocated(cfg, proc)
    requires ctl.stage.Collect? || ctl.stage.WaitAck? || ctl.stage.WaitSent?
    ensures MovesOne(cfg, r, ctl, proc)
  {}

  lemma MovesOneOther<T>(cfg: Config<T>, r: nat, ctl: Control, proc: Proc<T>)
    requires cfg.Valid() && ControlOk(cfg, ctl) && ctl.inside && Allocated(cfg, proc)
    requires ctl.stage.PostSend? || ctl.stage.PostRecv? || ctl.stage.Return? || ctl.stage.Thrown?
    ensures MovesOne(cfg, r, ctl, proc)
  {}

  lemma OnePosition<T>(cfg: Config<T>, r: nat, ctl: Control, proc: Proc<T>)
    requires cfg.Valid() && ControlOk(cfg, ctl) && ctl.inside && Allocated(cfg, proc)
    ensures MovesOne(cfg, r, ctl, proc)
  {
    match ctl.stage {
      case Exchange => MovesOneExchange(cfg, r, ctl, proc);
      case Collect | WaitAck | WaitSent => MovesOneWait(cfg, r, ctl, proc);
      case _ => MovesOneOther(cfg, r, ctl, proc);
    }
  }

  /** The description that an exchange step reads is the one its peer made in the same call. */
  ghost predicate Informed<T>(cfg: Config<T>, s: State<T>, r: nat)
    requires Shape(cfg, s) && r < cfg.p
  {
    var ctl, proc := s.ctl[r], s.net.procs[r];
    ctl.inside && ctl.stage.Exchange? && Got(ctl.i) in proc.notes ==>
      && proc.mem[RecvBuf(ctl.i)] == Described(Describe(cfg, ctl.i, r, ctl.calls))
      && s.ctl[ctl.i].calls == ctl.calls
  }

  lemma Arrived<T>(cfg: Config<T>, s: State<T>, r: nat)
    requires Inv(cfg, s) && r < cfg.p
    ensures Informed(cfg, s, r)
  {
    var ctl := s.ctl[r];
    if ctl.inside && ctl.stage.Exchange? && Got(ctl.i) in s.net.procs[r].notes {
      assert ContentsAt(cfg, s, r);
      assert CellsAt(cfg, s, r, ctl.i);
      assert Balanced(cfg, s, SendDescription(ctl.i, r));
      Order(cfg, s, ctl.i, r);
      assert MatchedAt(cfg, s, ctl.i, r);
    }
  }

  /** Does rank `r` post `t` at its present position? */
  ghost predicate Due<T>(cfg: Config<T>, r: nat, ctl: Control, t: Msg) {
    match t.slot
    case Data(i) => i == r && Position(cfg, ctl) == 2 * cfg.p + t.dst
    case Ack(j) => j == r && Position(cfg, ctl) == 3 * cfg.p + t.dst
    case _ => false
  }

  /** What an action posts. */
  lemma Posts<T>(cfg: Config<T>, s: State<T>, r: nat)
    requires Shape(cfg, s) && Enabled(cfg, s, DoAdvance(r)) && Informed(cfg, s, r)
    ensures var ctl := s.ctl[r];
            var o := Advance(cfg, r, ctl, s.net.procs[r]);
            o.posts == if !Climbs(ctl, o.ctl) then []
                       else if ctl.stage.Exchange? then [Current(cfg, s, r, ctl.i)]
                       else if ctl.stage.Collect? then [Acked(ctl.i, r)]
                       else []
  {}

  /** What it posts and consumes is what is due at its position. */
  lemma PostsDue<T>(cfg: Config<T>, s: State<T>, r: nat, t: Msg)
    requires Shape(cfg, s) && Enabled(cfg, s, DoAdvance(r)) && Informed(cfg, s, r) && Legitimate(cfg, s, t)
    ensures var o := Advance(cfg, r, s.ctl[r], s.net.procs[r]);
            multiset(o.posts)[t] == B(Climbs(s.ctl[r], o.ctl) && Due(cfg, r, s.ctl[r], t))
  {
    Posts(cfg, s, r);
  }

  lemma ConsumesDue<T>(cfg: Config<T>, r: nat, ctl: Control, proc: Proc<T>, slot: Slot)
    requires cfg.Valid() && ControlOk(cfg, ctl) && ctl.inside && Allocated(cfg, proc) && slot.j < cfg.p
    ensures var o := Advance(cfg, r, ctl, proc);
            && o.proc.notes == proc.notes - Consumed(proc, o)
            && (slot in Consumed(proc, o) <==> o.ctl != ctl && Position(cfg, ctl) == ConsumePosition(cfg, slot))
  {}

  lemma ControlMoves<T>(cfg: Config<T>, r: nat, ctl: Control, proc: Proc<T>, q: nat)
    requires cfg.Valid() && ControlOk(cfg, ctl) && ctl.inside && Allocated(cfg, proc) && q < 6 * cfg.p
    ensures var c := Advance(cfg, r, ctl, proc).ctl;
            && c.calls + B(c.inside && Position(cfg, c) > q)
               == ctl.calls + B(Position(cfg, ctl) > q) + B(Climbs(ctl, c) && Position(cfg, ctl) == q)
            && B(c.stage.Thrown? && Position(cfg, c) == q)
               == B(ctl.stage.Thrown? && Position(cfg, ctl) == q)
                  + B(c != ctl && !Climbs(ctl, c) && Position(cfg, ctl) == q)
  {
    OnePosition(cfg, r, ctl, proc);
  }

  /** How an action of rank `r` changes the number of times a position has been passed, and a
      notification taken. */
  lemma PassedChange<T>(cfg: Config<T>, s: State<T>, s': State<T>, r: nat, x: nat, q: nat)
    requires Shape(cfg, s) && Enabled(cfg, s, DoAdvance(r)) && s' == Step(cfg, s, DoAdvance(r)) && x < cfg.p
    requires q < 6 * cfg.p
    ensures Passed(cfg, s', x, q)
            == Passed(cfg, s, x, q) + B(x == r && Climbs(s.ctl[r], s'.ctl[r]) && Position(cfg, s.ctl[r]) == q)
    ensures Taken(cfg, s', x, q)
            == Taken(cfg, s, x, q) + B(x == r && s'.ctl[r] != s.ctl[r] && Position(cfg, s.ctl[r]) == q)
  {
    if x == r { ControlMoves(cfg, r, s.ctl[r], s.net.procs[r], q); } else { assert s'.ctl[x] == s.ctl[x]; }
  }

  lemma AdvanceShape<T>(cfg: Config<T>, s: State<T>, r: nat)
    requires Shape(cfg, s) && Enabled(cfg, s, DoAdvance(r))
    ensures Shape(cfg, Step(cfg, s, DoAdvance(r)))
  {
    OnePosition(cfg, r, s.ctl[r], s.net.procs[r]);
  }

  /** Offers and requests are outstanding at most once. */
  lemma NotOutstanding<T>(cfg: Config<T>, s: State<T>, r: nat, j: nat)
    requires Counts(cfg, s) && r < cfg.p && j < cfg.p
    ensures s.ctl[r].inside && Position(cfg, s.ctl[r]) <= 2 * j ==> (r, j) !in s.sends
    ensures s.ctl[r].inside && Position(cfg, s.ctl[r]) <= 2 * j + 1 ==> (j, r) !in s.recvs
  {
    assert Balanced(cfg, s, Notify(r, Sent(j)));
    assert Balanced(cfg, s, SendDescription(j, r));
    assert MatchedAt(cfg, s, j, r);
  }

  /** Where offers and requests are made. */
  lemma OfferPosition<T>(cfg: Config<T>, ctl: Control, j: nat)
    requires cfg.Valid() && ControlOk(cfg, ctl) && ctl.inside && j < cfg.p
    ensures Position(cfg, ctl) == 2 * j <==> ctl.stage.PostSend? && ctl.i == j
    ensures Position(cfg, ctl) == 2 * j + 1 <==> ctl.stage.PostRecv? && ctl.i == j
  {}

  /** Every offer and every request moves its rank on. */
  lemma OfferClimbs<T>(cfg: Config<T>, r: nat, ctl: Control, proc: Proc<T>)
    requires cfg.Valid() && ControlOk(cfg, ctl) && ctl.inside && Allocated(cfg, proc)
    requires ctl.stage.PostSend? || ctl.stage.PostRecv?
    ensures Climbs(ctl, Advance(cfg, r, ctl, proc).ctl)
  {}

  lemma OffersKept<T>(cfg: Config<T>, s: State<T>, s': State<T>, r: nat, i: nat, j: nat)
    requires Counts(cfg, s) && Enabled(cfg, s, DoAdvance(r)) && s' == Step(cfg, s, DoAdvance(r)) && Shape(cfg, s')
    requires i < cfg.p && j < cfg.p
    ensures Matched(cfg, s', i, j) == Matched(cfg, s, i, j)
  {
    PassedChange(cfg, s, s', r, i, 2 * j);
    NotOutstanding(cfg, s, r, j);
    OfferPosition(cfg, s.ctl[r], j);
    if s.ctl[r].stage.PostSend? { OfferClimbs(cfg, r, s.ctl[r], s.net.procs[r]); }
    assert (i, j) in s'.sends <==> (i, j) in s.sends || (i == r && s.ctl[r].stage.PostSend? && s.ctl[r].i == j);
  }

  lemma RequestsKept<T>(cfg: Config<T>, s: State<T>, s': State<T>, r: nat, i: nat, j: nat)
    requires Counts(cfg, s) && Enabled(cfg, s, DoAdvance(r)) && s' == Step(cfg, s, DoAdvance(r)) && Shape(cfg, s')
    requires i < cfg.p && j < cfg.p
    ensures Asked(cfg, s', i, j) - B((i, j) in s'.recvs) == Asked(cfg, s, i, j) - B((i, j) in s.recvs)
  {
    PassedChange(cfg, s, s', r, j, 2 * i + 1);
    NotOutstanding(cfg, s, r, i);
    OfferPosition(cfg, s.ctl[r], i);
    if s.ctl[r].stage.PostRecv? { OfferClimbs(cfg, r, s.ctl[r], s.net.procs[r]); }
    assert (i, j) in s'.recvs <==> (i, j) in s.recvs || (j == r && s.ctl[r].stage.PostRecv? && s.ctl[r].i == i);
  }

  lemma MatchedKept<T>(cfg: Config<T>, s: State<T>, s': State<T>, r: nat, i: nat, j: nat)
    requires Counts(cfg, s) && Enabled(cfg, s, DoAdvance(r)) && s' == Step(cfg, s, DoAdvance(r)) && Shape(cfg, s')
    requires i < cfg.p && j < cfg.p
    ensures MatchedAt(cfg, s', i, j)
  {
    assert MatchedAt(cfg, s, i, j);
    OffersKept(cfg, s, s', r, i, j);
    RequestsKept(cfg, s, s', r, i, j);
  }

  /** What has been posted, after an action of rank `r`: a block or an ack ... */
  lemma PostedMoves<T>(cfg: Config<T>, s: State<T>, s': State<T>, r: nat, t: Msg)
    requires Shape(cfg, s) && Enabled(cfg, s, DoAdvance(r)) && s' == Step(cfg, s, DoAdvance(r)) && Shape(cfg, s')
    requires Legitimate(cfg, s, t) && Legitimate(cfg, s', t) && (t.slot.Data? || t.slot.Ack?)
    ensures Posted(cfg, s', t) == Posted(cfg, s, t) + B(Climbs(s.ctl[r], s'.ctl[r]) && Due(cfg, r, s.ctl[r], t))
  {
    PassedChange(cfg, s, s', r, t.slot.j, (if t.slot.Data? then 2 * cfg.p else 3 * cfg.p) + t.dst);
  }

  /** ... or anything. */
  lemma PostedChange<T>(cfg: Config<T>, s: State<T>, s': State<T>, r: nat, t: Msg)
    requires Counts(cfg, s) && Enabled(cfg, s, DoAdvance(r)) && s' == Step(cfg, s, DoAdvance(r)) && Shape(cfg, s')
    requires Legitimate(cfg, s, t) && Legitimate(cfg, s', t)
    ensures Posted(cfg, s', t) == Posted(cfg, s, t) + B(Climbs(s.ctl[r], s'.ctl[r]) && Due(cfg, r, s.ctl[r], t))
  {
    match t.slot {
      case Got(i) => OffersKept(cfg, s, s', r, i, t.dst);
      case Sent(j) => OffersKept(cfg, s, s', r, t.dst, j);
      case _ => PostedMoves(cfg, s, s', r, t);
    }
  }

  lemma InFlightChange<T>(cfg: Config<T>, s: State<T>, s': State<T>, r: nat, t: Msg)
    requires Inv(cfg, s) && Enabled(cfg, s, DoAdvance(r)) && s' == Step(cfg, s, DoAdvance(r)) && Shape(cfg, s')
    requires Legitimate(cfg, s, t)
    ensures InFlight(s'.net, t)
            == InFlight(s.net, t) + B(Climbs(s.ctl[r], s'.ctl[r]) && Due(cfg, r, s.ctl[r], t))
               - B(t.dst == r && s'.ctl[r] != s.ctl[r] && Position(cfg, s.ctl[r]) == ConsumePosition(cfg, t.slot))
  {
    var ctl, proc := s.ctl[r], s.net.procs[r];
    var o := Advance(cfg, r, ctl, proc);
    Arrived(cfg, s, r);
    PostsDue(cfg, s, r, t);
    ConsumesDue(cfg, r, ctl, proc, t.slot);
    ActMovement(s.net, r, o.proc, o.posts, Consumed(proc, o), t);
  }

  /** Between calls no block can have arrived, and none can be on its way out or in. */
  lemma NothingArrivesOutside<T>(cfg: Config<T>, s: State<T>, r: nat, j: nat)
    requires Counts(cfg, s) && r < cfg.p && j < cfg.p && !s.ctl[r].inside
    ensures InFlight(s.net, Current(cfg, s, j, r)) == 0 && InFlight(s.net, Current(cfg, s, r, j)) == 0
  {
    assert Balanced(cfg, s, Current(cfg, s, j, r));
    assert Balanced(cfg, s, Current(cfg, s, r, j));
    Order(cfg, s, j, r);
    Order(cfg, s, r, j);
  }

  /** A rank about to return has received every block of its call. */
  lemma NothingLeftAtReturn<T>(cfg: Config<T>, s: State<T>, r: nat, j: nat)
    requires Counts(cfg, s) && r < cfg.p && j < cfg.p && s.ctl[r].inside && s.ctl[r].stage.Return?
    ensures InFlight(s.net, Current(cfg, s, j, r)) == 0 && Passed(cfg, s, j, 2 * cfg.p + r) == s.ctl[r].calls + 1
  {
    assert Balanced(cfg, s, Current(cfg, s, j, r));
    Order(cfg, s, j, r);
  }

  /** What becomes legitimate at a step is a block of the next call of a rank that returns. */
  lemma NextIsBlock<T>(cfg: Config<T>, s: State<T>, s': State<T>, r: nat, t: Msg)
    requires Shape(cfg, s) && Enabled(cfg, s, DoAdvance(r)) && s' == Step(cfg, s, DoAdvance(r)) && Shape(cfg, s')
    requires Legitimate(cfg, s', t) && !Legitimate(cfg, s, t)
    ensures t.dst == r && t.slot.Data? && s.ctl[r].stage.Return?
  {
    OnePosition(cfg, r, s.ctl[r], s.net.procs[r]);
  }

  /** A block of the next call, whose turn comes when rank `r` returns. */
  lemma ReturnBalance<T>(cfg: Config<T>, s: State<T>, s': State<T>, r: nat, t: Msg)
    requires Inv(cfg, s) && Enabled(cfg, s, DoAdvance(r)) && s' == Step(cfg, s, DoAdvance(r)) && Shape(cfg, s')
    requires Legitimate(cfg, s', t) && !Legitimate(cfg, s, t)
    ensures Balanced(cfg, s', t)
  {
    NextIsBlock(cfg, s, s', r, t);
    var i := t.slot.j;
    NothingLeftAtReturn(cfg, s, r, i);
    assert InFlight(s'.net, t) == 0 by {
      assert t !in s.net.pending;
      assert s'.net.pending == s.net.pending && s'.net.procs[r].notes == s.net.procs[r].notes;
    }
    PassedChange(cfg, s, s', r, i, 2 * cfg.p + r);
    ReturnTaken(cfg, s, s', r, i);
  }

  lemma ReturnTaken<T>(cfg: Config<T>, s: State<T>, s': State<T>, r: nat, i: nat)
    requires Shape(cfg, s) && Enabled(cfg, s, DoAdvance(r)) && s' == Step(cfg, s, DoAdvance(r)) && Shape(cfg, s')
    requires i < cfg.p && s.ctl[r].stage.Return?
    ensures Taken(cfg, s', r, 3 * cfg.p + i) == s.ctl[r].calls + 1
  {}

  lemma AdvanceBalance<T>(cfg: Config<T>, s: State<T>, s': State<T>, r: nat, t: Msg)
    requires Inv(cfg, s) && Enabled(cfg, s, DoAdvance(r)) && s' == Step(cfg, s, DoAdvance(r)) && Shape(cfg, s')
    requires Legitimate(cfg, s', t)
    ensures Balanced(cfg, s', t)
  {
    if Legitimate(cfg, s, t) {
      assert Balanced(cfg, s, t);
      InFlightChange(cfg, s, s', r, t);
      PostedChange(cfg, s, s', r, t);
      PassedChange(cfg, s, s', r, t.dst, ConsumePosition(cfg, t.slot));
    } else {
      ReturnBalance(cfg, s, s', r, t);
    }
  }

  lemma AdvanceLegitimate<T>(cfg: Config<T>, s: State<T>, s': State<T>, r: nat, t: Msg)
    requires Inv(cfg, s) && Enabled(cfg, s, DoAdvance(r)) && s' == Step(cfg, s, DoAdvance(r)) && Shape(cfg, s')
    requires t in s'.net.pending
    ensures Legitimate(cfg, s', t)
  {
    var o := Advance(cfg, r, s.ctl[r], s.net.procs[r]);
    OnePosition(cfg, r, s.ctl[r], s.net.procs[r]);
    Arrived(cfg, s, r);
    Posts(cfg, s, r);
    assert t in s.net.pending || t in o.posts;
    if t in s.net.pending && t.slot.Data? && t.dst == r && s.ctl[r].stage.Return? {
      NothingLeftAtReturn(cfg, s, r, t.slot.j);
    }
  }

  lemma AdvanceCounts<T>(cfg: Config<T>, s: State<T>, r: nat)
    requires Inv(cfg, s) && Enabled(cfg, s, DoAdvance(r))
    ensures Counts(cfg, Step(cfg, s, DoAdvance(r)))
  {
    var s' := Step(cfg, s, DoAdvance(r));
    AdvanceShape(cfg, s, r);
    forall t ensures Balanced(cfg, s', t) {
      if Legitimate(cfg, s', t) { AdvanceBalance(cfg, s, s', r, t); }
    }
    forall i, j | 0 <= i < cfg.p && 0 <= j < cfg.p ensures MatchedAt(cfg, s', i, j) {
      MatchedKept(cfg, s, s', r, i, j);
    }
    forall t | t in s'.net.pending ensures Legitimate(cfg, s', t) {
      AdvanceLegitimate(cfg, s, s', r, t);
    }
  }

  /** A step that changes the progress of no rank. */
  ghost predicate SameProgress<T>(cfg: Config<T>, s: State<T>, s': State<T>)
    requires Shape(cfg, s) && Shape(cfg, s')
  {
    forall x :: 0 <= x < cfg.p ==>
                  || s'.ctl[x] == s.ctl[x]
                  || (s.ctl[x] == Control(s.ctl[x].calls, false, PostSend, 0) && s'.ctl[x] == s.ctl[x].(inside := true))
  }

  lemma PassedKept<T>(cfg: Config<T>, s: State<T>, s': State<T>, x: nat, q: nat)
    requires Shape(cfg, s) && Shape(cfg, s') && SameProgress(cfg, s, s') && x < cfg.p
    ensures s'.ctl[x].calls == s.ctl[x].calls
    ensures Passed(cfg, s', x, q) == Passed(cfg, s, x, q) && Taken(cfg, s', x, q) == Taken(cfg, s, x, q)
  {}

  lemma BalanceKept<T>(cfg: Config<T>, s: State<T>, s': State<T>, t: Msg)
    requires Shape(cfg, s) && Shape(cfg, s') && SameProgress(cfg, s, s') && Balanced(cfg, s, t)
    requires Legitimate(cfg, s, t) && Legitimate(cfg, s', t)
    requires s'.sends == s.sends && InFlight(s'.net, t) == InFlight(s.net, t)
    ensures Balanced(cfg, s', t)
  {
    PassedKept(cfg, s, s', t.dst, ConsumePosition(cfg, t.slot));
    match t.slot {
      case Got(i) => PassedKept(cfg, s, s', i, 2 * t.dst);
      case Sent(j) => PassedKept(cfg, s, s', t.dst, 2 * j);
      case Data(i) => PassedKept(cfg, s, s', i, 2 * cfg.p + t.dst);
      case Ack(j) => PassedKept(cfg, s, s', j, 3 * cfg.p + t.dst);
    }
  }

  lemma MatchingKept<T>(cfg: Config<T>, s: State<T>, s': State<T>, i: nat, j: nat)
    requires Shape(cfg, s) && Shape(cfg, s') && SameProgress(cfg, s, s')
    requires i < cfg.p && j < cfg.p && MatchedAt(cfg, s, i, j)
    requires s'.sends == s.sends && s'.recvs == s.recvs
    ensures MatchedAt(cfg, s', i, j)
  {
    PassedKept(cfg, s, s', i, 2 * j);
    PassedKept(cfg, s, s', j, 2 * i + 1);
  }

  /** A step that changes the progress of no rank and the number under way of no transfer. */
  lemma CountsKept<T>(cfg: Config<T>, s: State<T>, s': State<T>)
    requires Counts(cfg, s) && Shape(cfg, s') && SameProgress(cfg, s, s') && s'.sends == s.sends && s'.recvs == s.recvs
    requires forall t :: t in s'.net.pending ==> t in s.net.pending
    requires forall t :: Legitimate(cfg, s, t) ==> InFlight(s'.net, t) == InFlight(s.net, t)
    ensures Counts(cfg, s')
  {
    forall t ensures Legitimate(cfg, s', t) <==> Legitimate(cfg, s, t) {}
    forall t ensures Balanced(cfg, s', t) {
      if Legitimate(cfg, s', t) {
        assert Legitimate(cfg, s, t) && Balanced(cfg, s, t);
        BalanceKept(cfg, s, s', t);
      }
    }
    forall i, j | 0 <= i < cfg.p && 0 <= j < cfg.p ensures MatchedAt(cfg, s', i, j) {
      assert MatchedAt(cfg, s, i, j);
      MatchingKept(cfg, s, s', i, j);
    }
  }

  lemma EnterCounts<T>(cfg: Config<T>, s: State<T>, r: nat)
    requires Inv(cfg, s) && Enabled(cfg, s, DoEnter(r))
    ensures Counts(cfg, Step(cfg, s, DoEnter(r)))
  {
    var s' := Step(cfg, s, DoEnter(r));
    forall t | Legitimate(cfg, s, t) ensures InFlight(s'.net, t) == InFlight(s.net, t) {
      ActMovement(s.net, r, s'.net.procs[r], [], {}, t);
    }
    CountsKept(cfg, s, s');
  }

  lemma MatchInFlight<T>(cfg: Config<T>, s: State<T>, s': State<T>, i: nat, j: nat, t: Msg)
    requires Shape(cfg, s) && Enabled(cfg, s, DoMatch(i, j)) && s' == Step(cfg, s, DoMatch(i, j)) && t.dst < cfg.p
    ensures InFlight(s'.net, t) == InFlight(s.net, t) + B(t == SendDescription(i, j)) + B(t == Notify(i, Sent(j)))
  {}

  lemma MatchPosted<T>(cfg: Config<T>, s: State<T>, s': State<T>, i: nat, j: nat, t: Msg)
    requires Shape(cfg, s) && Enabled(cfg, s, DoMatch(i, j)) && s' == Step(cfg, s, DoMatch(i, j)) && Shape(cfg, s')
    requires Legitimate(cfg, s, t)
    ensures Legitimate(cfg, s', t)
    ensures Posted(cfg, s', t) == Posted(cfg, s, t) + B(t == SendDescription(i, j)) + B(t == Notify(i, Sent(j)))
  {
    match t.slot {
      case Got(x) => PassedKept(cfg, s, s', x, 2 * t.dst);
      case Sent(y) => PassedKept(cfg, s, s', t.dst, 2 * y);
      case Data(x) => PassedKept(cfg, s, s', x, 2 * cfg.p + t.dst);
      case Ack(y) => PassedKept(cfg, s, s', y, 3 * cfg.p + t.dst);
    }
  }

  lemma MatchBalance<T>(cfg: Config<T>, s: State<T>, s': State<T>, i: nat, j: nat, t: Msg)
    requires Shape(cfg, s) && Enabled(cfg, s, DoMatch(i, j)) && s' == Step(cfg, s, DoMatch(i, j)) && Shape(cfg, s')
    requires Balanced(cfg, s, t) && Legitimate(cfg, s, t)
    ensures Balanced(cfg, s', t)
  {
    MatchInFlight(cfg, s, s', i, j, t);
    MatchPosted(cfg, s, s', i, j, t);
    PassedKept(cfg, s, s', t.dst, ConsumePosition(cfg, t.slot));
  }

  lemma MatchCounts<T>(cfg: Config<T>, s: State<T>, i: nat, j: nat)
    requires Inv(cfg, s) && Enabled(cfg, s, DoMatch(i, j))
    ensures Counts(cfg, Step(cfg, s, DoMatch(i, j)))
  {
    var s' := Step(cfg, s, DoMatch(i, j));
    forall t ensures Balanced(cfg, s', t) {
      assert Balanced(cfg, s, t);
      if Legitimate(cfg, s', t) { MatchBalance(cfg, s, s', i, j, t); }
    }
    forall x, y | 0 <= x < cfg.p && 0 <= y < cfg.p ensures MatchedAt(cfg, s', x, y) {
      assert MatchedAt(cfg, s, x, y);
    }
  }

  /** What a delivery leaves at its destination. */
  lemma ArriveEffect<T>(cfg: Config<T>, s: State<T>, t: Msg) returns (mem: map<Cell, Value<T>>)
    requires Shape(cfg, s) && Arrivable(s.net, t)
    ensures Arrive(s.net, t) == Complete(s.net, t, mem) && Shape(cfg, Step(cfg, s, DoDeliver(t)))
  {
    mem := Arrive(s.net, t).procs[t.dst].mem;
  }

  lemma DeliverCounts<T>(cfg: Config<T>, s: State<T>, t: Msg)
    requires Inv(cfg, s) && Arrivable(s.net, t)
    ensures Counts(cfg, Step(cfg, s, DoDeliver(t)))
  {
    var s' := Step(cfg, s, DoDeliver(t));
    var mem := ArriveEffect(cfg, s, t);
    PendingAlone(cfg, s, t);
    forall u | Legitimate(cfg, s, u) ensures InFlight(s'.net, u) == InFlight(s.net, u) {
      CompleteMovement(s.net, t, mem, u);
    }
    CountsKept(cfg, s, s');
  }

  // ----- preservation of the contents -----

  lemma EnterContents<T>(cfg: Config<T>, s: State<T>, r: nat, x: nat)
    requires Inv(cfg, s) && Enabled(cfg, s, DoEnter(r)) && Shape(cfg, Step(cfg, s, DoEnter(r))) && x < cfg.p
    ensures ContentsAt(cfg, Step(cfg, s, DoEnter(r)), x)
  {
    var s' := Step(cfg, s, DoEnter(r));
    assert ContentsAt(cfg, s, x);
    forall j | 0 <= j < cfg.p ensures CellsAt(cfg, s', x, j) {
      assert CellsAt(cfg, s, x, j);
      if x == r { EnterCells(cfg, s, s', r, j); }
    }
  }

  lemma EnterCells<T>(cfg: Config<T>, s: State<T>, s': State<T>, r: nat, j: nat)
    requires Counts(cfg, s) && Enabled(cfg, s, DoEnter(r)) && s' == Step(cfg, s, DoEnter(r)) && Shape(cfg, s')
    requires j < cfg.p
    requires DescriptionsAt(cfg, s, r, j) && WrittenAt(cfg, s, r, j)
    ensures CellsAt(cfg, s', r, j)
  {
    NothingArrivesOutside(cfg, s, r, j);
    assert cfg.ValidCall(r, s.ctl[r].calls);
    assert !Collected(cfg, s'.ctl[r], s'.net.procs[r], j);
  }

  lemma MatchContents<T>(cfg: Config<T>, s: State<T>, i: nat, j: nat, r: nat)
    requires Inv(cfg, s) && Enabled(cfg, s, DoMatch(i, j)) && Shape(cfg, Step(cfg, s, DoMatch(i, j))) && r < cfg.p
    ensures ContentsAt(cfg, Step(cfg, s, DoMatch(i, j)), r)
  {
    assert ContentsAt(cfg, s, r);
    forall x | 0 <= x < cfg.p ensures CellsAt(cfg, Step(cfg, s, DoMatch(i, j)), r, x) {
      assert CellsAt(cfg, s, r, x);
    }
  }

  lemma AdvanceContents<T>(cfg: Config<T>, s: State<T>, r: nat, x: nat)
    requires Inv(cfg, s) && Enabled(cfg, s, DoAdvance(r)) && Counts(cfg, Step(cfg, s, DoAdvance(r))) && x < cfg.p
    ensures ContentsAt(cfg, Step(cfg, s, DoAdvance(r)), x)
  {
    var s' := Step(cfg, s, DoAdvance(r));
    assert ContentsAt(cfg, s, x);
    if x == r { AdvanceOutput(cfg, s, r); }
    forall j | 0 <= j < cfg.p ensures CellsAt(cfg, s', x, j) {
      assert CellsAt(cfg, s, x, j);
      if x == r { AdvanceCells(cfg, s, s', r, j); }
    }
  }

  lemma AdvanceOutput<T>(cfg: Config<T>, s: State<T>, r: nat)
    requires Inv(cfg, s) && Enabled(cfg, s, DoAdvance(r)) && Shape(cfg, Step(cfg, s, DoAdvance(r)))
    ensures OutputAt(cfg, Step(cfg, s, DoAdvance(r)), r)
  {
    OnePosition(cfg, r, s.ctl[r], s.net.procs[r]);
    assert ContentsAt(cfg, s, r);
    if s.ctl[r].stage.Return? {
      var k, out := s.ctl[r].calls, s.net.procs[r].mem[Target];
      assert CellsAt(cfg, s, r, 0);
      forall j | 0 <= j < cfg.p
        ensures Fits(cfg, j, r, k) && Slice(cfg.targetSizes(r, k), out.data, j) == After(cfg, r, j, k)
      {
        assert CellsAt(cfg, s, r, j);
      }
      assert Delivered(cfg, r, k, out);
    }
  }

  lemma AdvanceCells<T>(cfg: Config<T>, s: State<T>, s': State<T>, r: nat, j: nat)
    requires Inv(cfg, s) && Enabled(cfg, s, DoAdvance(r)) && s' == Step(cfg, s, DoAdvance(r)) && Counts(cfg, s')
    requires j < cfg.p
    requires CellsAt(cfg, s, r, j)
    ensures CellsAt(cfg, s', r, j)
  {
    AdvanceBlocks(cfg, s, s', r, j);
    AdvanceWritten(cfg, s, s', r, j);
    if s.ctl[r].stage.Return? {
      // the next call has not begun: no description for it can be here
      assert Balanced(cfg, s', SendDescription(j, r));
      assert MatchedAt(cfg, s', j, r);
    } else {
      AdvanceDescriptions(cfg, s, s', r, j);
    }
  }

  lemma AdvanceDescriptions<T>(cfg: Config<T>, s: State<T>, s': State<T>, r: nat, j: nat)
    requires Shape(cfg, s) && Enabled(cfg, s, DoAdvance(r)) && s' == Step(cfg, s, DoAdvance(r)) && Shape(cfg, s')
    requires j < cfg.p
    requires DescriptionsAt(cfg, s, r, j) && !s.ctl[r].stage.Return?
    ensures DescriptionsAt(cfg, s', r, j)
  {
    var ctl, proc := s.ctl[r], s.net.procs[r];
    OnePosition(cfg, r, ctl, proc);
    MakesDescription(cfg, r, ctl, proc, j);
  }

  /** An action writes no cell but the buffer of the description it makes. */
  lemma MakesDescription<T>(cfg: Config<T>, r: nat, ctl: Control, proc: Proc<T>, j: nat)
    requires cfg.Valid() && ControlOk(cfg, ctl) && ctl.inside && Allocated(cfg, proc) && j < cfg.p
    ensures var o := Advance(cfg, r, ctl, proc);
            && o.proc.notes <= proc.notes && Allocated(cfg, o.proc)
            && o.proc.mem[Source] == proc.mem[Source] && o.proc.mem[Target] == proc.mem[Target]
            && o.proc.mem[RecvBuf(j)] == proc.mem[RecvBuf(j)]
            && o.proc.mem[SendBuf(j)]
               == if Position(cfg, ctl) == 2 * j then Described(Describe(cfg, r, j, ctl.calls))
                  else proc.mem[SendBuf(j)]
  {}

  lemma AdvanceBlocks<T>(cfg: Config<T>, s: State<T>, s': State<T>, r: nat, j: nat)
    requires Shape(cfg, s) && Enabled(cfg, s, DoAdvance(r)) && s' == Step(cfg, s, DoAdvance(r)) && Shape(cfg, s')
    requires j < cfg.p
    requires BlocksAt(cfg, s, r, j)
    ensures BlocksAt(cfg, s', r, j)
  {
    var ctl, proc := s.ctl[r], s.net.procs[r];
    OnePosition(cfg, r, ctl, proc);
    MakesDescription(cfg, r, ctl, proc, j);
    ConsumesDue(cfg, r, ctl, proc, Data(j));
    if s'.ctl[r].inside {
      assert Collected(cfg, s'.ctl[r], s'.net.procs[r], j) <==> Collected(cfg, ctl, proc, j);
    }
  }

  /** A block is written exactly if it fits; otherwise its sender throws. */
  lemma AdvanceWritten<T>(cfg: Config<T>, s: State<T>, s': State<T>, r: nat, j: nat)
    requires Inv(cfg, s) && Enabled(cfg, s, DoAdvance(r)) && s' == Step(cfg, s, DoAdvance(r)) && Counts(cfg, s')
    requires j < cfg.p
    requires WrittenAt(cfg, s, r, j)
    ensures WrittenAt(cfg, s', r, j)
  {
    Arrived(cfg, s, r);
    WritesIfFits(cfg, s, s', r, j);
    PassedChange(cfg, s, s', r, r, 2 * cfg.p + j);
    OnePosition(cfg, r, s.ctl[r], s.net.procs[r]);
    var n, k := Passed(cfg, s, r, 2 * cfg.p + j), s.ctl[r].calls;
    forall m | 0 <= m < Passed(cfg, s', r, 2 * cfg.p + j) ensures Fits(cfg, r, j, m) {
      assert m < n || m == k;
    }
  }

  lemma WritesIfFits<T>(cfg: Config<T>, s: State<T>, s': State<T>, r: nat, j: nat)
    requires Shape(cfg, s) && Enabled(cfg, s, DoAdvance(r)) && s' == Step(cfg, s, DoAdvance(r)) && j < cfg.p
    requires Informed(cfg, s, r)
    ensures s'.ctl[r] != s.ctl[r] && Position(cfg, s.ctl[r]) == 2 * cfg.p + j ==>
              (s'.ctl[r].stage.Thrown? <==> !Fits(cfg, r, j, s.ctl[r].calls))
  {
    assert cfg.ValidCall(r, s.ctl[r].calls) && cfg.ValidCall(j, s.ctl[r].calls);
  }

  // ----- deliveries -----

  /** A description under way is the one its receiver needs in its current call. */
  lemma DescriptionOnItsWay<T>(cfg: Config<T>, s: State<T>, i: nat, j: nat)
    requires Inv(cfg, s) && i < cfg.p && j < cfg.p && SendDescription(i, j) in s.net.pending
    ensures s.net.procs[i].mem[SendBuf(j)] == Described(Describe(cfg, i, j, s.ctl[j].calls))
  {
    PendingAlone(cfg, s, SendDescription(i, j));
    Order(cfg, s, i, j);
    assert ContentsAt(cfg, s, i);
    assert CellsAt(cfg, s, i, j);
    assert MatchedAt(cfg, s, i, j);
  }

  /** Rank i's source part for j holds its block of call `k`. */
  ghost predicate SourceHolds<T>(cfg: Config<T>, s: State<T>, i: nat, j: nat, k: nat)
    requires Shape(cfg, s) && i < cfg.p && j < cfg.p
  {
    assert cfg.ValidCall(i, k);
    var part, mem := Part(Source, cfg.sourceOffsets(i, k)[j], cfg.sourceSizes(i, k)[j]), s.net.procs[i].mem;
    Inside(mem, part) && Elements(mem, part) == Block(cfg, i, j, k)
  }

  /** The target part that rank j has described to i for call `k` has room for i's block. */
  ghost predicate TargetHasRoom<T>(cfg: Config<T>, s: State<T>, i: nat, j: nat, k: nat)
    requires Shape(cfg, s) && i < cfg.p && j < cfg.p
  {
    assert cfg.ValidCall(i, k);
    Inside(s.net.procs[j].mem, Part(Target, Describe(cfg, j, i, k).offset, cfg.sourceSizes(i, k)[j]))
  }

  /** A block under way is the one its receiver needs in its current call: the source part it leaves
      holds it, it fits the target part, and that is as it was when the call began. */
  lemma BlockOnItsWay<T>(cfg: Config<T>, s: State<T>, i: nat, j: nat)
    requires Inv(cfg, s) && i < cfg.p && j < cfg.p && Current(cfg, s, i, j) in s.net.pending
    ensures var t, k := Current(cfg, s, i, j), s.ctl[j].calls;
            && s.ctl[j].inside && Fits(cfg, i, j, k) && Arrivable(s.net, t)
            && !Collected(cfg, s.ctl[j], s.net.procs[j], i)
            && SourceHolds(cfg, s, i, j, k) && TargetHasRoom(cfg, s, i, j, k)
  {
    PendingAlone(cfg, s, Current(cfg, s, i, j));
    BlockInFlight(cfg, s, i, j);
    SourceReady(cfg, s, i, j);
    TargetReady(cfg, s, j, i);
  }

  /** A rank inside a call that has gone past a write: the block fitted and is still there. */
  lemma SourceReady<T>(cfg: Config<T>, s: State<T>, i: nat, j: nat)
    requires Inv(cfg, s) && i < cfg.p && j < cfg.p && s.ctl[i].inside && Position(cfg, s.ctl[i]) > 2 * cfg.p + j
    ensures Fits(cfg, i, j, s.ctl[i].calls) && SourceHolds(cfg, s, i, j, s.ctl[i].calls)
  {
    assert ContentsAt(cfg, s, i);
    assert CellsAt(cfg, s, i, j);
    assert cfg.ValidCall(i, s.ctl[i].calls);
  }

  /** A rank inside a call has room in its target for every block that fits. */
  lemma TargetReady<T>(cfg: Config<T>, s: State<T>, j: nat, i: nat)
    requires Inv(cfg, s) && i < cfg.p && j < cfg.p && s.ctl[j].inside && Fits(cfg, i, j, s.ctl[j].calls)
    ensures TargetHasRoom(cfg, s, i, j, s.ctl[j].calls)
  {
    var k := s.ctl[j].calls;
    assert ContentsAt(cfg, s, j);
    assert CellsAt(cfg, s, j, i);
    assert cfg.ValidCall(j, k) && cfg.ValidCall(i, k);
    SumMonotonic(cfg.targetSizes(j, k), i + 1, cfg.p);
  }

  /** Every pending transfer can be delivered. */
  lemma PendingArrives<T>(cfg: Config<T>, s: State<T>, t: Msg)
    requires Inv(cfg, s) && t in s.net.pending
    ensures Arrivable(s.net, t)
  {
    PendingAlone(cfg, s, t);
    if t.slot.Data? { BlockOnItsWay(cfg, s, t.slot.j, t.dst); }
  }

  lemma DeliverContents<T>(cfg: Config<T>, s: State<T>, t: Msg, r: nat)
    requires Inv(cfg, s) && Arrivable(s.net, t) && Shape(cfg, Step(cfg, s, DoDeliver(t))) && r < cfg.p
    ensures ContentsAt(cfg, Step(cfg, s, DoDeliver(t)), r)
  {
    var s' := Step(cfg, s, DoDeliver(t));
    PendingAlone(cfg, s, t);
    assert ContentsAt(cfg, s, r);
    assert OutputAt(cfg, s', r);
    forall j | 0 <= j < cfg.p ensures CellsAt(cfg, s', r, j) {
      assert CellsAt(cfg, s, r, j);
      if t.dst != r {
        DeliverElsewhere(cfg, s, s', t, r, j);
      } else if t.slot.Data? {
        DeliverBlock(cfg, s, s', t, j);
      } else {
        DeliverNoBlock(cfg, s, s', t, j);
      }
    }
  }

  lemma DeliverElsewhere<T>(cfg: Config<T>, s: State<T>, s': State<T>, t: Msg, r: nat, j: nat)
    requires Shape(cfg, s) && Arrivable(s.net, t) && s' == s.(net := Arrive(s.net, t)) && Shape(cfg, s')
    requires r < cfg.p && t.dst != r && j < cfg.p && CellsAt(cfg, s, r, j)
    ensures CellsAt(cfg, s', r, j)
  {
    var mem := ArriveEffect(cfg, s, t);
    assert s'.net.procs[r] == s.net.procs[r];
  }

  lemma DeliverNoBlock<T>(cfg: Config<T>, s: State<T>, s': State<T>, t: Msg, j: nat)
    requires Inv(cfg, s) && Arrivable(s.net, t) && s' == s.(net := Arrive(s.net, t)) && Shape(cfg, s')
    requires t in s.net.pending && Legitimate(cfg, s, t) && !t.slot.Data? && j < cfg.p && CellsAt(cfg, s, t.dst, j)
    ensures CellsAt(cfg, s', t.dst, j)
  {
    if t.slot.Got? { DescriptionOnItsWay(cfg, s, t.slot.j, t.dst); }
    assert s'.net.procs[t.dst].mem[Target] == s.net.procs[t.dst].mem[Target];
    assert s.ctl[t.dst].inside ==>
        (Collected(cfg, s'.ctl[t.dst], s'.net.procs[t.dst], j)
         <==> Collected(cfg, s.ctl[t.dst], s.net.procs[t.dst], j));
  }

  /** A transfer of a block of `n` elements, delivered. */
  lemma WriteLands<T>(net: Network<T>, r: nat, offset: nat, n: nat, d: BufferDescription)
    requires Arrivable(net, WriteTo(r, offset, n, d)) && r < |net.procs|
    requires Inside(net.procs[r].mem, Part(Source, offset, n))
    requires Inside(net.procs[d.rank].mem, Part(Target, d.offset, n))
    ensures var mem := net.procs[d.rank].mem;
            var piece := Elements(net.procs[r].mem, Part(Source, offset, n));
            Arrive(net, WriteTo(r, offset, n, d)).procs[d.rank]
            == Process(mem[Target := Flat(Splice(mem[Target].data, d.offset, piece))],
                       net.procs[d.rank].notes + {Data(d.notificationId)})
  {
    if n == 0 {
      var mem := net.procs[d.rank].mem;
      assert Splice(mem[Target].data, d.offset, []) == mem[Target].data;
      assert mem[Target := mem[Target]] == mem;
    }
  }

  /** A block that arrives is spliced into its place in the target and raises its notification. */
  lemma BlockLands<T>(cfg: Config<T>, s: State<T>, s': State<T>, i: nat, r: nat)
    requires Inv(cfg, s) && i < cfg.p && r < cfg.p && Arrivable(s.net, Current(cfg, s, i, r))
    requires s' == s.(net := Arrive(s.net, Current(cfg, s, i, r)))
    ensures var k, mem := s.ctl[r].calls, s.net.procs[r].mem;
            && Fits(cfg, i, r, k) && cfg.ValidCall(r, k) && mem[Target].Flat?
            && Sum(cfg.targetSizes(r, k), i) + |Block(cfg, i, r, k)| <= |mem[Target].data|
            && s'.net.procs[r].notes == s.net.procs[r].notes + {Data(i)}
            && s'.net.procs[r].mem
               == mem[Target := Flat(Splice(mem[Target].data, Sum(cfg.targetSizes(r, k), i), Block(cfg, i, r, k)))]
  {
    var k := s.ctl[r].calls;
    BlockOnItsWay(cfg, s, i, r);
    WriteLands(s.net, i, cfg.sourceOffsets(i, k)[r], cfg.sourceSizes(i, k)[r], Describe(cfg, r, i, k));
  }

  lemma DeliverBlock<T>(cfg: Config<T>, s: State<T>, s': State<T>, t: Msg, j: nat)
    requires Inv(cfg, s) && Arrivable(s.net, t) && s' == s.(net := Arrive(s.net, t)) && Shape(cfg, s')
    requires t in s.net.pending && Legitimate(cfg, s, t) && t.slot.Data? && j < cfg.p && CellsAt(cfg, s, t.dst, j)
    ensures CellsAt(cfg, s', t.dst, j)
  {
    var i, r := t.slot.j, t.dst;
    BlockOnItsWay(cfg, s, i, r);
    assert CellsAt(cfg, s, r, i) by { assert ContentsAt(cfg, s, r); }
    BlockLands(cfg, s, s', i, r);
    BlockLanded(cfg, r, s.ctl[r], s.net.procs[r], s'.net.procs[r], i, j);
  }

  /** What the arrival of block `i` makes of target block `j`. */
  lemma BlockLanded<T>(cfg: Config<T>, r: nat, ctl: Control, proc: Proc<T>, proc': Proc<T>, i: nat, j: nat)
    requires cfg.Valid() && r < cfg.p && i < cfg.p && j < cfg.p && Fits(cfg, i, r, ctl.calls)
    requires cfg.ValidCall(r, ctl.calls)
    requires Allocated(cfg, proc) && BuffersAt(cfg, r, ctl, proc) && !Collected(cfg, ctl, proc, i)
    requires TargetAt(cfg, r, ctl, proc, i) && TargetAt(cfg, r, ctl, proc, j)
    requires var sizes, block := cfg.targetSizes(r, ctl.calls), Block(cfg, i, r, ctl.calls);
             && Sum(sizes, i) + |block| <= |proc.mem[Target].data|
             && proc'.mem == proc.mem[Target := Flat(Splice(proc.mem[Target].data, Sum(sizes, i), block))]
    requires proc'.notes == proc.notes + {Data(i)}
    ensures Allocated(cfg, proc') && BuffersAt(cfg, r, ctl, proc') && TargetAt(cfg, r, ctl, proc', j)
  {
    SpliceSlice(cfg.targetSizes(r, ctl.calls), proc.mem[Target].data, i, Block(cfg, i, r, ctl.calls), j);
    assert Collected(cfg, ctl, proc', j) <==> j == i || Collected(cfg, ctl, proc, j);
  }

  lemma StepInv<T>(cfg: Config<T>, s: State<T>, a: Action)
    requires Inv(cfg, s) && Enabled(cfg, s, a)
    ensures Inv(cfg, Step(cfg, s, a))
  {
    var s' := Step(cfg, s, a);
    match a {
      case DoEnter(r) => EnterCounts(cfg, s, r);
      case DoAdvance(r) => AdvanceCounts(cfg, s, r);
      case DoMatch(i, j) => MatchCounts(cfg, s, i, j);
      case DoDeliver(t) => DeliverCounts(cfg, s, t);
    }
    forall x | 0 <= x < cfg.p ensures ContentsAt(cfg, s', x) {
      match a {
        case DoEnter(r) => EnterContents(cfg, s, r, x);
        case DoAdvance(r) => AdvanceContents(cfg, s, r, x);
        case DoMatch(i, j) => MatchContents(cfg, s, i, j, x);
        case DoDeliver(t) => DeliverContents(cfg, s, t, x);
      }
    }
  }

  lemma {:induction false} RunInv<T>(cfg: Config<T>, run: seq<State<T>>, n: nat)
    requires IsRun(cfg, run) && n < |run|
    ensures Inv(cfg, run[n])
  {
    if n == 0 {
      InitInv(cfg, run[0]);
    } else {
      RunInv(cfg, run, n - 1);
      assert Transition(cfg, run[n - 1], run[n - 1 + 1]);
      var a :| Enabled(cfg, run[n - 1], a) && run[n] == Step(cfg, run[n - 1], a);
      StepInv(cfg, run[n - 1], a);
    }
  }

  lemma ReachableInv<T(!new)>(cfg: Config<T>, s: State<T>)
    requires Reachable(cfg, s)
    ensures Inv(cfg, s)
  {
    var run :| IsRun(cfg, run) && run[|run| - 1] == s;
    RunInv(cfg, run, |run| - 1);
  }

  // ----- the results -----

  /** Block `j` of `data` begins with `block` and goes on as it does in `before`. */
  ghost predicate Holds<T>(sizes: seq<nat>, data: seq<T>, before: seq<T>, j: nat, block: seq<T>)
    requires j < |sizes|
  {
    var at, end := Sum(sizes, j), Sum(sizes, j + 1);
    && at + |block| <= end <= |data| == |before|
    && data[at..at + |block|] == block
    && data[at + |block|..end] == before[at + |block|..end]
  }

  lemma SliceHolds<T>(sizes: seq<nat>, data: seq<T>, before: seq<T>, j: nat, block: seq<T>)
    requires j < |sizes| && |data| == |before| == Sum(sizes, |sizes|) && |block| <= sizes[j]
    requires Slice(sizes, data, j) == block + Slice(sizes, before, j)[|block|..]
    ensures Holds(sizes, data, before, j, block)
  {
    BlockInside(sizes, j);
    var at := Sum(sizes, j);
    assert data[at..at + |block|] == Slice(sizes, data, j)[..|block|];
    assert data[at + |block|..Sum(sizes, j + 1)] == Slice(sizes, data, j)[|block|..];
  }

  lemma DeliveredHolds<T>(cfg: Config<T>, r: nat, k: nat, out: Value<T>, j: nat)
    requires cfg.Valid() && r < cfg.p && j < cfg.p && Delivered(cfg, r, k, out)
    ensures cfg.ValidCall(r, k) && out.Flat? && Fits(cfg, j, r, k)
    ensures |out.data| == Sum(cfg.targetSizes(r, k), cfg.p)
    ensures Holds(cfg.targetSizes(r, k), out.data, cfg.scratch(r, k), j, Block(cfg, j, r, k))
  {
    assert Fits(cfg, j, r, k) && Slice(cfg.targetSizes(r, k), out.data, j) == After(cfg, r, j, k);
    SliceHolds(cfg.targetSizes(r, k), out.data, cfg.scratch(r, k), j, Block(cfg, j, r, k));
  }

  lemma OutputDelivered<T(!new)>(cfg: Config<T>, s: State<T>, r: nat, k: nat)
    requires Reachable(cfg, s) && Shape(cfg, s) && r < cfg.p && k < s.ctl[r].calls
    ensures |s.outs[r]| == s.ctl[r].calls && Delivered(cfg, r, k, s.outs[r][k])
  {
    ReachableInv(cfg, s);
    assert ContentsAt(cfg, s, r);
  }

  /** At the return of a call every target block begins with the block that its sender passed, and
      goes on with what it held before: a smaller block leaves the rest, and a larger one never
      lets the call return. */
  lemma CallsDeliver<T(!new)>(cfg: Config<T>, s: State<T>, r: nat, k: nat, j: nat)
    requires Reachable(cfg, s) && Shape(cfg, s) && r < cfg.p && k < s.ctl[r].calls && j < cfg.p
    ensures |s.outs[r]| == s.ctl[r].calls && s.outs[r][k].Flat? && Fits(cfg, j, r, k) && cfg.ValidCall(r, k)
    ensures |s.outs[r][k].data| == Sum(cfg.targetSizes(r, k), cfg.p)
    ensures Holds(cfg.targetSizes(r, k), s.outs[r][k].data, cfg.scratch(r, k), j, Block(cfg, j, r, k))
  {
    OutputDelivered(cfg, s, r, k);
    DeliveredHolds(cfg, r, k, s.outs[r][k], j);
  }

  /** In an alltoallv the source blocks follow one another. */
  ghost predicate IsAlltoallv<T>(cfg: Config<T>, k: nat)
    requires cfg.Valid()
  {
    forall i, j :: 0 <= i < cfg.p && 0 <= j < cfg.p ==>
                     cfg.ValidCall(i, k) && cfg.sourceOffsets(i, k)[j] == Sum(cfg.sourceSizes(i, k), j)
  }

  /** Target block j of `out`, at its prefix-sum offset, is rank j's source block for rank r, at its own. */
  ghost predicate Transposed<T>(cfg: Config<T>, r: nat, k: nat, out: seq<T>, j: nat)
    requires cfg.Valid() && r < cfg.p && j < cfg.p
  {
    assert cfg.ValidCall(r, k) && cfg.ValidCall(j, k);
    var target, source := cfg.targetSizes(r, k), cfg.sourceSizes(j, k);
    && Sum(target, j + 1) <= |out| && Sum(source, r + 1) <= |cfg.input(j, k)|
    && out[Sum(target, j)..Sum(target, j + 1)] == cfg.input(j, k)[Sum(source, r)..Sum(source, r + 1)]
  }

  /** Every alltoallv of every rank transposes if and only if the sizes passed at the two ends agree. */
  lemma CallsTranspose<T(!new)>(cfg: Config<T>, s: State<T>, r: nat, k: nat, j: nat)
    requires Reachable(cfg, s) && Shape(cfg, s) && r < cfg.p && k < s.ctl[r].calls && j < cfg.p && IsAlltoallv(cfg, k)
    ensures |s.outs[r]| == s.ctl[r].calls && s.outs[r][k].Flat? && cfg.ValidCall(r, k) && cfg.ValidCall(j, k)
    ensures Transposed(cfg, r, k, s.outs[r][k].data, j) <==> cfg.sourceSizes(j, k)[r] == cfg.targetSizes(r, k)[j]
  {
    OutputDelivered(cfg, s, r, k);
    DeliveredTransposes(cfg, r, k, s.outs[r][k], j);
  }

  lemma DeliveredTransposes<T>(cfg: Config<T>, r: nat, k: nat, out: Value<T>, j: nat)
    requires cfg.Valid() && r < cfg.p && j < cfg.p && IsAlltoallv(cfg, k) && Delivered(cfg, r, k, out)
    ensures cfg.ValidCall(r, k) && cfg.ValidCall(j, k)
    ensures Transposed(cfg, r, k, out.data, j) <==> cfg.sourceSizes(j, k)[r] == cfg.targetSizes(r, k)[j]
  {
    DeliveredHolds(cfg, r, k, out, j);
    SourceBlock(cfg, j, r, k);
    HoldsExactly(cfg.targetSizes(r, k), out.data, cfg.scratch(r, k), j, Block(cfg, j, r, k));
  }

  lemma SourceBlock<T>(cfg: Config<T>, j: nat, r: nat, k: nat)
    requires cfg.Valid() && j < cfg.p && r < cfg.p && IsAlltoallv(cfg, k)
    ensures cfg.ValidCall(j, k) && Sum(cfg.sourceSizes(j, k), r + 1) <= |cfg.input(j, k)|
    ensures Block(cfg, j, r, k) == cfg.input(j, k)[Sum(cfg.sourceSizes(j, k), r)..Sum(cfg.sourceSizes(j, k), r + 1)]
  {}

  lemma HoldsExactly<T>(sizes: seq<nat>, data: seq<T>, before: seq<T>, j: nat, block: seq<T>)
    requires j < |sizes| && Holds(sizes, data, before, j, block)
    ensures data[Sum(sizes, j)..Sum(sizes, j + 1)] == block <==> |block| == sizes[j]
  {}

  /** In an allgatherv every rank passes its whole source buffer to every rank. */
  ghost predicate IsAllgatherv<T>(cfg: Config<T>, counts: seq<nat>, k: nat)
    requires cfg.Valid() && |counts| == cfg.p
  {
    forall i :: 0 <= i < cfg.p ==>
                  && cfg.ValidCall(i, k) && cfg.targetSizes(i, k) == counts && |cfg.input(i, k)| == counts[i]
                  && forall j :: 0 <= j < cfg.p ==>
                                   cfg.sourceOffsets(i, k)[j] == 0 && cfg.sourceSizes(i, k)[j] == counts[i]
  }

  /** `piece(0)`, ..., `piece(n - 1)`, one after the other. */
  ghost function Concatenation<T>(piece: nat -> seq<T>, n: nat): seq<T> {
    if n == 0 then [] else Concatenation(piece, n - 1) + piece(n - 1)
  }

  /** At the return of an allgatherv the target holds the source buffers of all ranks in rank order. */
  lemma Allgatherv<T(!new)>(cfg: Config<T>, s: State<T>, r: nat, k: nat, counts: seq<nat>)
    requires Reachable(cfg, s) && Shape(cfg, s) && r < cfg.p && k < s.ctl[r].calls
    requires |counts| == cfg.p && IsAllgatherv(cfg, counts, k)
    ensures |s.outs[r]| == s.ctl[r].calls && s.outs[r][k] == Flat(Concatenation((i: nat) => cfg.input(i, k), cfg.p))
  {
    OutputDelivered(cfg, s, r, k);
    DeliveredConcatenates(cfg, r, k, s.outs[r][k], counts, (i: nat) => cfg.input(i, k));
  }

  lemma DeliveredConcatenates<T>(cfg: Config<T>, r: nat, k: nat, out: Value<T>, counts: seq<nat>, piece: nat -> seq<T>)
    requires cfg.Valid() && r < cfg.p && Delivered(cfg, r, k, out)
    requires |counts| == cfg.p && IsAllgatherv(cfg, counts, k) && forall i :: piece(i) == cfg.input(i, k)
    ensures out == Flat(Concatenation(piece, cfg.p))
  {
    forall j | 0 <= j < cfg.p ensures InPlace(piece, counts, out.data, cfg.scratch(r, k), j) {
      DeliveredHolds(cfg, r, k, out, j);
      assert Block(cfg, j, r, k) == cfg.input(j, k);
    }
    DeliveredHolds(cfg, r, k, out, 0);
    BlocksConcatenate(piece, counts, out.data, cfg.scratch(r, k), cfg.p);
    assert out.data[..Sum(counts, cfg.p)] == out.data;
  }

  ghost predicate InPlace<T>(piece: nat -> seq<T>, counts: seq<nat>, data: seq<T>, before: seq<T>, j: nat)
    requires j < |counts|
  {
    |piece(j)| == counts[j] && Holds(counts, data, before, j, piece(j))
  }

  lemma {:induction false} BlocksConcatenate<T>(piece: nat -> seq<T>, counts: seq<nat>, data: seq<T>, before: seq<T>,
                                                n: nat)
    requires n <= |counts| && forall j :: 0 <= j < n ==> InPlace(piece, counts, data, before, j)
    ensures Sum(counts, n) <= |data| && data[..Sum(counts, n)] == Concatenation(piece, n)
  {
    if n == 0 {
    } else {
      BlocksConcatenate(piece, counts, data, before, n - 1);
      assert InPlace(piece, counts, data, before, n - 1);
      OneMoreBlock(piece, counts, data, before, n - 1);
    }
  }

  lemma OneMoreBlock<T>(piece: nat -> seq<T>, counts: seq<nat>, data: seq<T>, before: seq<T>, j: nat)
    requires j < |counts| && InPlace(piece, counts, data, before, j)
    requires Sum(counts, j) <= |data| && data[..Sum(counts, j)] == Concatenation(piece, j)
    ensures Sum(counts, j + 1) <= |data| && data[..Sum(counts, j + 1)] == Concatenation(piece, j + 1)
  {
    var from, to := Sum(counts, j), Sum(counts, j + 1);
    assert data[..to] == data[..from] + data[from..to];
  }

  /** A rank has gone past the write of a block exactly if the block fitted, and has thrown at it
      exactly if it did not. */
  lemma ThrowsExactly<T(!new)>(cfg: Config<T>, s: State<T>, r: nat, j: nat)
    requires Reachable(cfg, s) && Shape(cfg, s) && r < cfg.p && j < cfg.p
    requires Taken(cfg, s, r, 2 * cfg.p + j) > s.ctl[r].calls
    ensures s.ctl[r].stage.Thrown? && s.ctl[r].i == j <==> !Fits(cfg, r, j, s.ctl[r].calls)
  {
    ReachableInv(cfg, s);
    assert ContentsAt(cfg, s, r);
    assert CellsAt(cfg, s, r, j);
    WrittenExactly(cfg, s, r, j);
  }

  lemma WrittenExactly<T>(cfg: Config<T>, s: State<T>, r: nat, j: nat)
    requires Shape(cfg, s) && r < cfg.p && j < cfg.p && WrittenAt(cfg, s, r, j)
    requires Taken(cfg, s, r, 2 * cfg.p + j) > s.ctl[r].calls
    ensures s.ctl[r].stage.Thrown? && s.ctl[r].i == j <==> !Fits(cfg, r, j, s.ctl[r].calls)
  {
    if Passed(cfg, s, r, 2 * cfg.p + j) > s.ctl[r].calls {
      assert Fits(cfg, r, j, s.ctl[r].calls);
    } else {
      assert s.ctl[r].stage.Thrown? && s.ctl[r].i == j;
    }
  }

  function Whole(c: Cell): Cell {
    if c.Part? then c.of else c
  }

  /** `t` reads or writes buffer `c` of rank `r`, or part of it, when it is delivered. */
  ghost predicate Uses(t: Msg, r: nat, c: Cell) {
    t.Write? && ((t.src == r && Whole(t.from) == c) || (t.dst == r && Whole(t.into) == c))
  }

  /** A rank that is not inside a call has no transfer pending out of its source or into its target,
      and none of its data notifications is raised. */
  lemma NothingPendingOutside<T(!new)>(cfg: Config<T>, s: State<T>, r: nat, j: nat, t: Msg)
    requires Reachable(cfg, s) && Shape(cfg, s) && r < cfg.p && j < cfg.p && !s.ctl[r].inside
    ensures t in s.net.pending ==> !Uses(t, r, Source) && !Uses(t, r, Target)
    ensures Data(j) !in s.net.procs[r].notes
  {
    ReachableInv(cfg, s);
    NothingArrivesOutside(cfg, s, r, j);
    if t in s.net.pending && t.slot.Data? {
      PendingAlone(cfg, s, t);
      NothingArrivesOutside(cfg, s, r, if t.dst == r then t.slot.j else t.dst);
    }
  }

  // ----- progress -----

  ghost predicate Productive<T>(cfg: Config<T>, s: State<T>, a: Action)
    requires Shape(cfg, s)
  {
    Enabled(cfg, s, a) && !a.DoEnter? && Step(cfg, s, a) != s
  }

  ghost predicate Behind<T>(cfg: Config<T>, s: State<T>, x: nat, y: nat)
    requires x < |s.ctl| && y < |s.ctl|
  {
    || s.ctl[y].calls < s.ctl[x].calls
    || (s.ctl[y].calls == s.ctl[x].calls && Position(cfg, s.ctl[y]) < Position(cfg, s.ctl[x]))
  }

  lemma {:induction false} Slowest<T>(cfg: Config<T>, s: State<T>, n: nat) returns (x: nat)
    requires 0 < n <= |s.ctl|
    ensures x < n && forall y :: 0 <= y < n ==> !Behind(cfg, s, x, y)
  {
    x := 0;
    if n == 1 {
    } else {
      var w := Slowest(cfg, s, n - 1);
      x := if Behind(cfg, s, w, n - 1) then n - 1 else w;
      forall y | 0 <= y < n ensures !Behind(cfg, s, x, y) {
        assert y < n - 1 ==> !Behind(cfg, s, w, y);
      }
    }
  }

  ghost function Entered<T>(s: State<T>, r: nat): nat
    requires r < |s.ctl|
  {
    s.ctl[r].calls + B(s.ctl[r].inside)
  }

  lemma StuckExchange<T>(cfg: Config<T>, s: State<T>, x: nat)
    requires Inv(cfg, s) && s.net.pending == multiset{} && x < cfg.p && s.ctl[x].inside && s.ctl[x].stage.Exchange?
    requires Advance(cfg, x, s.ctl[x], s.net.procs[x]).ctl == s.ctl[x] && Entered(s, s.ctl[x].i) > s.ctl[x].calls
    ensures Behind(cfg, s, x, s.ctl[x].i) || Enabled(cfg, s, DoMatch(s.ctl[x].i, x))
  {
    var i := s.ctl[x].i;
    assert Got(i) !in s.net.procs[x].notes by {
      assert ContentsAt(cfg, s, x);
      assert CellsAt(cfg, s, x, i);
    }
    assert Balanced(cfg, s, SendDescription(i, x)) && MatchedAt(cfg, s, i, x);
  }

  /** A rank that is stuck and has not thrown waits for a rank behind it, or for a match that can be made. */
  lemma StuckRank<T>(cfg: Config<T>, s: State<T>, x: nat)
    requires Inv(cfg, s) && s.net.pending == multiset{} && x < cfg.p && s.ctl[x].inside
    requires Advance(cfg, x, s.ctl[x], s.net.procs[x]).ctl == s.ctl[x] && Entered(s, s.ctl[x].i) > s.ctl[x].calls
    requires !s.ctl[x].stage.Thrown?
    ensures var i := s.ctl[x].i;
            Behind(cfg, s, x, i) || Enabled(cfg, s, DoMatch(i, x)) || Enabled(cfg, s, DoMatch(x, i))
  {
    var i := s.ctl[x].i;
    match s.ctl[x].stage {
      case Exchange => StuckExchange(cfg, s, x);
      case Collect => assert Balanced(cfg, s, Current(cfg, s, i, x));
      case WaitAck => assert Balanced(cfg, s, Acked(x, i));
      case WaitSent => assert Balanced(cfg, s, Notify(x, Sent(i))) && MatchedAt(cfg, s, x, i);
      case _ =>
    }
  }

  /** The slowest rank that is inside a call can move, or a description it needs can be matched. */
  lemma SlowestAdvances<T>(cfg: Config<T>, s: State<T>, x: nat)
    requires Inv(cfg, s) && s.net.pending == multiset{} && x < cfg.p && s.ctl[x].inside && !s.ctl[x].stage.Thrown?
    requires forall y :: 0 <= y < cfg.p ==> !Behind(cfg, s, x, y) && Entered(s, y) > s.ctl[x].calls
    ensures exists a :: Productive(cfg, s, a)
  {
    var ctl, i := s.ctl[x], s.ctl[x].i;
    if Advance(cfg, x, ctl, s.net.procs[x]).ctl != ctl {
      assert Step(cfg, s, DoAdvance(x)).ctl[x] != ctl;
      assert Productive(cfg, s, DoAdvance(x));
    } else {
      assert i < cfg.p && Entered(s, i) > ctl.calls;
      StuckRank(cfg, s, x);
      assert !Behind(cfg, s, x, i);
      if Enabled(cfg, s, DoMatch(i, x)) { MatchIsProductive(cfg, s, i, x); } else { MatchIsProductive(cfg, s, x, i); }
    }
  }

  lemma MatchIsProductive<T>(cfg: Config<T>, s: State<T>, i: nat, j: nat)
    requires Shape(cfg, s) && Enabled(cfg, s, DoMatch(i, j))
    ensures exists a :: Productive(cfg, s, a)
  {
    assert (i, j) !in Step(cfg, s, DoMatch(i, j)).sends;
    assert Productive(cfg, s, DoMatch(i, j));
  }

  /** No deadlock: as long as every rank has begun its k-th call and some rank has not returned from
      it, a delivery, a match or a rank inside a call can make progress, unless some rank has thrown
      because its block was too large for the target described to it.  So blocks that fit never
      leave a call stuck. */
  lemma NoDeadlock<T(!new)>(cfg: Config<T>, s: State<T>, k: nat, z: nat)
    requires Reachable(cfg, s) && Shape(cfg, s) && z < cfg.p && s.ctl[z].calls < k
    requires forall r :: 0 <= r < cfg.p ==> Entered(s, r) >= k
    ensures
      || (exists a :: Productive(cfg, s, a))
      || (exists r :: 0 <= r < cfg.p && s.ctl[r].stage.Thrown? && !Fits(cfg, r, s.ctl[r].i, s.ctl[r].calls))
  {
    ReachableInv(cfg, s);
    if s.net.pending != multiset{} {
      var t :| t in s.net.pending;
      PendingAlone(cfg, s, t);
      PendingArrives(cfg, s, t);
      assert Step(cfg, s, DoDeliver(t)).net.pending[t] == 0;
      assert Productive(cfg, s, DoDeliver(t));
    } else {
      var x := Slowest(cfg, s, cfg.p);
      assert !Behind(cfg, s, x, z) && Entered(s, x) >= k;
      if s.ctl[x].stage.Thrown? {
        assert ContentsAt(cfg, s, x);
        assert CellsAt(cfg, s, x, s.ctl[x].i);
      } else {
        SlowestAdvances(cfg, s, x);
      }
    }
  }
}
