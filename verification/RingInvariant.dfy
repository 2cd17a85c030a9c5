/** The invariant of the ring allreduce machine.  It is static: for every link of the ring it
    counts what has been sent, received and acknowledged, and it says what every cell holds. */
module RingInvariant {
  import opened RingIndex
  import opened Reduction
  import opened Transport
  import opened RingAllreduce

  // ----- the counts -----

  /** 0 before start, `step + 1` while running: the number of messages of this execution sent
      (of at most 2p - 2), and one more than the number received. */
  ghost function Pos<T>(s: State<T>, r: nat): nat
    requires r < |s.ctl|
  {
    if s.ctl[r].phase.Running? then s.ctl[r].step + 1 else 0
  }

  /** How often `l` has sent its message `m`, over all executions. */
  ghost function SentCount<T>(s: State<T>, l: nat, m: nat): nat
    requires l < |s.ctl| == |s.rounds|
  {
    s.rounds[l] + if Pos(s, l) >= m + 1 then 1 else 0
  }

  ghost function ReceivedCount<T>(s: State<T>, r: nat, m: nat): nat
    requires r < |s.ctl| == |s.rounds|
  {
    s.rounds[r] + if Pos(s, r) >= m + 2 then 1 else 0
  }

  ghost function AckCount<T>(s: State<T>, p: nat, r: nat): nat
    requires r < |s.ctl| == |s.rounds| && 0 < p
  {
    s.rounds[r] + if Pos(s, r) >= 2 * p - 1 then 1 else 0
  }

  /** Message `m` of the link into rank `r`: p - 1 messages of the reduce phase, then p - 1 of
      the gather phase, each one chunk to the left of the one before. */
  ghost function Into(p: nat, r: nat, m: nat): Msg
    requires r < p && m <= 2 * p - 3
  {
    var c := Back(p, r, m + 1);
    if m <= p - 2 then ReduceWrite(p, Prev(p, r), c) else GatherWrite(p, Prev(p, r), c)
  }

  /** The ack `r` returns to its left neighbour at the end of an execution. */
  ghost function AckFrom(p: nat, r: nat): Msg
    requires r < p && 2 <= p
  {
    GatherAck(p, r, Back(p, r, 2 * p - 2))
  }

  /** The message number of an arrival notification at `r`. */
  ghost function Number(p: nat, r: nat, slot: Slot): nat
    requires r < p && !slot.Ack? && slot.c < p
  {
    if slot.Red? then (if slot.c == r then 2 * p else Dist(p, r, slot.c) - 1) else p - 1 + Dist(p, r, slot.c)
  }

  lemma NumberInto(p: nat, r: nat, m: nat)
    requires r < p && m <= 2 * p - 3
    ensures var t := Into(p, r, m); t.Write? && t.dst == r && t.slot.c < p && !t.slot.Ack? && Number(p, r, t.slot) == m
  {}

  ghost predicate LinkAt<T>(cfg: Config<T>, s: State<T>, r: nat, m: nat)
    requires Shape(cfg, s) && r < cfg.p && m <= 2 * cfg.p - 3
  {
    InFlight(s.net, Into(cfg.p, r, m)) == SentCount(s, Prev(cfg.p, r), m) - ReceivedCount(s, r, m)
  }

  ghost predicate AckAt<T>(cfg: Config<T>, s: State<T>, r: nat)
    requires Shape(cfg, s) && r < cfg.p
  {
    InFlight(s.net, AckFrom(cfg.p, r)) == AckCount(s, cfg.p, r) - s.rounds[Prev(cfg.p, r)]
  }

  /** A transfer the algorithm can post. */
  ghost predicate Legitimate(p: nat, t: Msg)
    requires 2 <= p
  {
    && t.dst < p
    && if t.slot.Ack? then t == AckFrom(p, Next(p, t.dst))
       else
         && t.slot.c < p && Number(p, t.dst, t.slot) <= 2 * p - 3
         && t == Into(p, t.dst, Number(p, t.dst, t.slot))
  }

  ghost predicate Counts<T>(cfg: Config<T>, s: State<T>) {
    && Shape(cfg, s)
    && (forall t :: t in s.net.pending ==> Legitimate(cfg.p, t))
    && (forall r, m :: 0 <= r < cfg.p && 0 <= m <= 2 * cfg.p - 3 ==> LinkAt(cfg, s, r, m))
    && (forall r :: 0 <= r < cfg.p ==> AckAt(cfg, s, r))
  }

  // ----- the contents -----

  /** Chunk `c` of execution `k` after `j` hops: x[c+j] op (x[c+j-1] op (... op x[c])). */
  ghost function Partial<T>(cfg: Config<T>, k: nat, c: nat, j: nat): (v: seq<T>)
    requires cfg.Valid() && c < cfg.p && j < cfg.p
    ensures |v| == Live(cfg, c)
  {
    var own := Chunk(cfg, cfg.input(Forth(cfg.p, c, j), k), c);
    if j == 0 then own else Zip(cfg.op, own, Partial(cfg, k, c, j - 1))
  }

  ghost function Full<T>(cfg: Config<T>, k: nat, c: nat): (v: seq<T>)
    requires cfg.Valid() && c < cfg.p
    ensures |v| == Live(cfg, c)
  {
    Partial(cfg, k, c, cfg.p - 1)
  }

  /** The part of a buffer that carries elements; the rest of the last chunks is padding. */
  ghost function Head<T>(cfg: Config<T>, proc: Proc<T>, cell: Cell): seq<T>
    requires cfg.Valid() && cell.c < cfg.p && Allocated(cfg, proc)
  {
    proc.mem[cell][..Live(cfg, cell.c)]
  }

  ghost predicate Gathered<T>(cfg: Config<T>, s: State<T>, r: nat, c: nat)
    requires Shape(cfg, s) && r < cfg.p && c < cfg.p
  {
    var d := Dist(cfg.p, r, c);
    d <= cfg.p - 2 && (Gat(c) in s.net.procs[r].notes || Pos(s, r) >= cfg.p + 1 + d)
  }

  ghost predicate SourceAt<T>(cfg: Config<T>, s: State<T>, r: nat, c: nat)
    requires Shape(cfg, s) && r < cfg.p && c < cfg.p
  {
    var k, d, head := s.rounds[r], Dist(cfg.p, r, c), Head(cfg, s.net.procs[r], Src(c));
    match s.ctl[r].phase
    case Initialized => true
    case Finished => 0 < k && head == Full(cfg, k - 1, c)
    case _ =>
      head == if Gathered(cfg, s, r, c) then Full(cfg, k, c)
              else if Pos(s, r) >= d + 1 then Partial(cfg, k, c, d)
              else Chunk(cfg, cfg.input(r, k), c)
  }

  ghost predicate TargetAt<T>(cfg: Config<T>, s: State<T>, r: nat, c: nat)
    requires Shape(cfg, s) && r < cfg.p && c < cfg.p
  {
    var d := Dist(cfg.p, r, c);
    1 <= d && Red(c) in s.net.procs[r].notes ==>
      Head(cfg, s.net.procs[r], Tgt(c)) == Partial(cfg, ReceivedCount(s, r, d - 1), c, d - 1)
  }

  ghost function Result<T>(cfg: Config<T>, k: nat, upTo: nat): (v: seq<T>)
    requires cfg.Valid() && upTo <= cfg.p
    ensures |v| == Offset(cfg, upTo)
  {
    if upTo == 0 then [] else Result(cfg, k, upTo - 1) + Full(cfg, k, upTo - 1)
  }

  ghost predicate OutputsAt<T>(cfg: Config<T>, s: State<T>, r: nat)
    requires Shape(cfg, s) && r < cfg.p
  {
    && |s.outs[r]| + (if s.ctl[r].phase.Finished? then 1 else 0) == s.rounds[r]
    && forall k :: 0 <= k < |s.outs[r]| ==> s.outs[r][k] == Result(cfg, k, cfg.p)
  }

  ghost predicate Contents<T>(cfg: Config<T>, s: State<T>)
    requires Shape(cfg, s)
  {
    && (forall r, c :: 0 <= r < cfg.p && 0 <= c < cfg.p ==> SourceAt(cfg, s, r, c))
    && (forall r, c :: 0 <= r < cfg.p && 0 <= c < cfg.p ==> TargetAt(cfg, s, r, c))
    && forall r :: 0 <= r < cfg.p ==> OutputsAt(cfg, s, r)
  }

  ghost predicate Inv<T>(cfg: Config<T>, s: State<T>) {
    Counts(cfg, s) && Contents(cfg, s)
  }

  // ----- consequences of the counts -----

  /** `x` has sent message `m` of execution `k`. */
  ghost predicate PastSend<T>(s: State<T>, x: nat, k: nat, m: nat)
    requires x < |s.ctl| == |s.rounds|
  {
    s.rounds[x] > k || (s.rounds[x] == k && Pos(s, x) >= m + 1)
  }

  /** Sending message `m` takes having received message `m - 1`, so causality runs leftwards. */
  lemma {:induction false} Chain<T>(cfg: Config<T>, s: State<T>, x: nat, k: nat, m: nat, j: nat)
    requires Counts(cfg, s) && x < cfg.p
    requires j <= m <= 2 * cfg.p - 3 && j < cfg.p
    requires PastSend(s, x, k, m)
    ensures PastSend(s, Back(cfg.p, x, j), k, m - j)
  {
    if j == 0 {
    } else {
      Chain(cfg, s, x, k, m, j - 1);
      var y := Back(cfg.p, x, j - 1);
      assert Prev(cfg.p, y) == Back(cfg.p, x, j);
      assert LinkAt(cfg, s, y, m - j);
    }
  }

  /** The left neighbour is at most one execution ahead: every message is in flight at most once. */
  lemma AtMostOnce<T>(cfg: Config<T>, s: State<T>, r: nat, m: nat)
    requires Counts(cfg, s) && r < cfg.p && m <= 2 * cfg.p - 3
    ensures s.rounds[Prev(cfg.p, r)] <= AckCount(s, cfg.p, r)
    ensures InFlight(s.net, AckFrom(cfg.p, r)) <= 1
    ensures InFlight(s.net, Into(cfg.p, r, m)) <= 1
  {
    assert AckAt(cfg, s, r) && LinkAt(cfg, s, r, m);
    // r acknowledges execution k only after receiving its last message from l
    assert LinkAt(cfg, s, r, 2 * cfg.p - 3);
  }

  /** A reduce message in flight into `r`: its sender still runs the execution of that message,
      and no gather message is on its way to the sent cell. */
  lemma ReduceInFlight<T>(cfg: Config<T>, s: State<T>, r: nat, m: nat)
    requires Counts(cfg, s) && r < cfg.p && m <= cfg.p - 2
    requires 0 < InFlight(s.net, Into(cfg.p, r, m))
    ensures var l := Prev(cfg.p, r);
            && s.ctl[l].phase.Running?
            && s.rounds[l] == ReceivedCount(s, r, m) && m + 1 <= Pos(s, l) < cfg.p + 1 + m
            && InFlight(s.net, Into(cfg.p, l, cfg.p - 1 + m)) == 0
  {
    var p, l := cfg.p, Prev(cfg.p, r);
    AtMostOnce(cfg, s, r, m);
    assert LinkAt(cfg, s, r, m) && LinkAt(cfg, s, l, p - 1 + m);
    var k, ll := ReceivedCount(s, r, m), Prev(p, l);
    GatherNotSent(cfg, s, r, m, k);
  }

  /** As long as `r` has not received message `m` of a round, no gather message behind it in the
      same round has come all the way round to the left neighbour's left neighbour. */
  lemma GatherNotSent<T>(cfg: Config<T>, s: State<T>, r: nat, m: nat, k: nat)
    requires Counts(cfg, s) && r < cfg.p && m <= cfg.p - 2 && ReceivedCount(s, r, m) <= k
    ensures SentCount(s, Prev(cfg.p, Prev(cfg.p, r)), cfg.p - 1 + m) <= k
  {
    var p := cfg.p;
    var ll := Prev(p, Prev(p, r));
    assert Back(p, ll, p - 2) == r;
    if SentCount(s, ll, p - 1 + m) > k {
      Chain(cfg, s, ll, k, p - 1 + m, p - 2);
      assert false;
    }
  }

  /** A gather message in flight into `r`: `r` has passed the chunk on in the execution in which it
      has been sent, and has not received it. */
  lemma GatherReceiver<T>(cfg: Config<T>, s: State<T>, r: nat, d: nat)
    requires Counts(cfg, s) && r < cfg.p && d <= cfg.p - 2
    requires 0 < InFlight(s.net, Into(cfg.p, r, cfg.p - 1 + d))
    ensures PastSend(s, Prev(cfg.p, r), s.rounds[r], cfg.p - 1 + d)
    ensures d + 1 <= Pos(s, r) < cfg.p + 1 + d
  {
    var p, l, m := cfg.p, Prev(cfg.p, r), cfg.p - 1 + d;
    SentNotReceived(cfg, s, r, m);
    assert Back(p, l, p - 1) == r;
    Chain(cfg, s, l, ReceivedCount(s, r, m), m, p - 1);
  }

  /** A message in flight has been sent in the execution in which it will be received. */
  lemma SentNotReceived<T>(cfg: Config<T>, s: State<T>, r: nat, m: nat)
    requires Counts(cfg, s) && r < cfg.p && m <= 2 * cfg.p - 3 && 0 < InFlight(s.net, Into(cfg.p, r, m))
    ensures PastSend(s, Prev(cfg.p, r), ReceivedCount(s, r, m), m)
  {
    assert LinkAt(cfg, s, r, m);
  }

  /** `r` and its sender run the same execution, and `r` has passed the chunk on to a neighbour that
      has received it. */
  lemma GatherInFlight<T>(cfg: Config<T>, s: State<T>, r: nat, d: nat)
    requires Counts(cfg, s) && r < cfg.p && d <= cfg.p - 2
    requires 0 < InFlight(s.net, Into(cfg.p, r, cfg.p - 1 + d))
    ensures var l, n := Prev(cfg.p, r), Next(cfg.p, r);
            && s.ctl[r].phase.Running? && s.ctl[l].phase.Running?
            && s.rounds[l] == s.rounds[r]
            && d + 1 <= Pos(s, r) < cfg.p + 1 + d <= Pos(s, l) + 1
            && PastSend(s, n, s.rounds[r], d + 1)
  {
    GatherReceiver(cfg, s, r, d);
    AtMostOnce(cfg, s, r, cfg.p - 1 + d);
    PassedOn(cfg, s, r, d);
  }

  /** The right neighbour of `r` has passed the chunk on before. */
  lemma PassedOn<T>(cfg: Config<T>, s: State<T>, r: nat, d: nat)
    requires Counts(cfg, s) && r < cfg.p && d <= cfg.p - 2
    requires PastSend(s, Prev(cfg.p, r), s.rounds[r], cfg.p - 1 + d)
    ensures PastSend(s, Next(cfg.p, r), s.rounds[r], d + 1)
  {
    var p, l := cfg.p, Prev(cfg.p, r);
    assert Back(p, l, p - 2) == Next(p, r);
    Chain(cfg, s, l, s.rounds[r], p - 1 + d, p - 2);
  }

  lemma NoReduceBeside<T>(cfg: Config<T>, s: State<T>, r: nat, d: nat)
    requires Counts(cfg, s) && r < cfg.p && d <= cfg.p - 2
    requires 0 < InFlight(s.net, Into(cfg.p, r, cfg.p - 1 + d))
    ensures InFlight(s.net, Into(cfg.p, Next(cfg.p, r), d)) == 0
  {
    GatherInFlight(cfg, s, r, d);
    AtMostOnce(cfg, s, Next(cfg.p, r), d);
    assert LinkAt(cfg, s, Next(cfg.p, r), d);
  }

  /** The next gather message on the way of chunk `c` has not been sent yet. */
  lemma NoGatherBeside<T>(cfg: Config<T>, s: State<T>, r: nat, d: nat)
    requires Counts(cfg, s) && r < cfg.p && d < cfg.p - 2
    requires 0 < InFlight(s.net, Into(cfg.p, r, cfg.p - 1 + d))
    ensures InFlight(s.net, Into(cfg.p, Next(cfg.p, r), cfg.p + d)) == 0
  {
    GatherInFlight(cfg, s, r, d);
    assert LinkAt(cfg, s, Next(cfg.p, r), cfg.p + d);
  }

  /** ... so nothing else that touches the cell is on its way from `r`. */
  lemma GatherAlone<T>(cfg: Config<T>, s: State<T>, r: nat, d: nat)
    requires Counts(cfg, s) && r < cfg.p && d <= cfg.p - 2
    requires 0 < InFlight(s.net, Into(cfg.p, r, cfg.p - 1 + d))
    ensures InFlight(s.net, Into(cfg.p, Next(cfg.p, r), d)) == 0
    ensures d < cfg.p - 2 ==> InFlight(s.net, Into(cfg.p, Next(cfg.p, r), cfg.p + d)) == 0
  {
    NoReduceBeside(cfg, s, r, d);
    if d < cfg.p - 2 { NoGatherBeside(cfg, s, r, d); }
  }
}
