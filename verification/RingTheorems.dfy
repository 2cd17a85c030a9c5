/** What ring allreduce guarantees in every reachable state, for any number of ranks, any
    number of executions and any interleaving of calls and deliveries. */
module RingTheorems {
  import opened RingIndex
  import opened Reduction
  import opened Transport
  import opened RingAllreduce
  import opened RingInvariant
  import opened RingCounts
  import opened RingContents

  lemma StepInv<T>(cfg: Config<T>, s: State<T>, a: Action)
    requires Inv(cfg, s) && Enabled(cfg, s, a)
    ensures Inv(cfg, Step(cfg, s, a))
  {
    match a {
      case DoCopyIn(r) => CopyInCounts(cfg, s, r); CopyInContents(cfg, s, r);
      case DoStart(r) => StartCounts(cfg, s, r); StartContents(cfg, s, r);
      case DoTrigger(r) => TriggerCounts(cfg, s, r); TriggerContents(cfg, s, r);
      case DoCopyOut(r) => CopyOutCounts(cfg, s, r); CopyOutContents(cfg, s, r);
      case DoDeliver(t) => DeliverCounts(cfg, s, t); DeliverContents(cfg, s, t);
    }
  }

  lemma {:induction false} RunInv<T>(cfg: Config<T>, run: seq<State<T>>)
    requires IsRun(cfg, run)
    ensures Inv(cfg, run[|run| - 1])
  {
    var n := |run| - 1;
    if n == 0 {
      InitCounts(cfg, run[0]);
      InitContents(cfg, run[0]);
    } else {
      RunInv(cfg, run[..n]);
      assert Transition(cfg, run[n - 1], run[n]);
      var a :| Enabled(cfg, run[n - 1], a) && run[n] == Step(cfg, run[n - 1], a);
      StepInv(cfg, run[n - 1], a);
    }
  }

  lemma ReachableInv<T(!new)>(cfg: Config<T>, s: State<T>)
    requires Reachable(cfg, s)
    ensures Inv(cfg, s)
  {
    var run :| IsRun(cfg, run) && run[|run| - 1] == s;
    RunInv(cfg, run);
  }

  // ----- the result -----

  /** f(c + j) op (f(c + j - 1) op (... op f(c))), indices modulo p. */
  ghost function RingFold<T>(op: (T, T) -> T, f: nat -> T, p: nat, c: nat, j: nat): T
    requires c < p && j < p
  {
    if j == 0 then f(c) else op(f(Forth(p, c, j)), RingFold(op, f, p, c, j - 1))
  }

  /** Element `j` of what each rank supplies to execution `k`. */
  ghost function Column<T>(cfg: Config<T>, k: nat, j: nat): nat -> T
    requires cfg.Valid() && j < cfg.n
  {
    (r: nat) => assert |cfg.input(r, k)| == cfg.n; cfg.input(r, k)[j]
  }

  lemma {:induction false} PartialElement<T>(cfg: Config<T>, k: nat, c: nat, j: nat, e: nat)
    requires cfg.Valid() && c < cfg.p && j < cfg.p && e < Live(cfg, c)
    ensures Partial(cfg, k, c, j)[e] == RingFold(cfg.op, Column(cfg, k, Offset(cfg, c) + e), cfg.p, c, j)
  {
    var own := cfg.input(Forth(cfg.p, c, j), k);
    assert Chunk(cfg, own, c)[e] == own[Offset(cfg, c) + e];
    if j == 0 {
    } else {
      PartialElement(cfg, k, c, j - 1, e);
    }
  }

  lemma {:induction false} ResultElement<T>(cfg: Config<T>, k: nat, upTo: nat, c: nat, e: nat)
    requires cfg.Valid() && c < upTo <= cfg.p && e < Live(cfg, c)
    ensures Offset(cfg, c) + e < Offset(cfg, upTo)
    ensures Result(cfg, k, upTo)[Offset(cfg, c) + e] == Full(cfg, k, c)[e]
  {
    if c == upTo - 1 {
    } else {
      ResultElement(cfg, k, upTo - 1, c, e);
    }
  }

  /** The copy loops split the elements into chunks of `pad`, and the chunks cover them all. */
  lemma {:induction false} OffsetValue<T>(cfg: Config<T>, c: nat)
    ensures Offset(cfg, c) == if c * cfg.pad <= cfg.n then c * cfg.pad else cfg.n
  {
    if c == 0 {
    } else {
      OffsetValue(cfg, c - 1);
      assert c * cfg.pad == (c - 1) * cfg.pad + cfg.pad;
    }
  }

  /** The chunk size: the least for which `b` chunks cover `a` elements. */
  function CeilDiv(a: nat, b: nat): (q: nat)
    requires 0 < b
    ensures a <= b * q < a + b
  {
    (a + b - 1) / b
  }

  /** The chunk of element `j`, and its place there. */
  function ChunkOf(pad: nat, j: nat): nat
    requires 0 < pad
  {
    j / pad
  }

  function PlaceOf(pad: nat, j: nat): (e: nat)
    requires 0 < pad
    ensures e < pad && j == ChunkOf(pad, j) * pad + e
  {
    j % pad
  }

  lemma Multiples(a: nat, b: nat, pad: nat)
    ensures (a + 1) * pad == a * pad + pad
    ensures a <= b ==> a * pad <= b * pad
  {}

  lemma Covered<T>(cfg: Config<T>, j: nat)
    requires cfg.Valid() && cfg.n <= cfg.p * cfg.pad && j < cfg.n
    ensures 0 < cfg.pad && ChunkOf(cfg.pad, j) < cfg.p && Offset(cfg, cfg.p) == cfg.n
    ensures Offset(cfg, ChunkOf(cfg.pad, j)) + PlaceOf(cfg.pad, j) == j
    ensures PlaceOf(cfg.pad, j) < Live(cfg, ChunkOf(cfg.pad, j))
  {
    assert 0 < cfg.pad;
    var c := ChunkOf(cfg.pad, j);
    assert j == c * cfg.pad + PlaceOf(cfg.pad, j);
    Multiples(cfg.p, c, cfg.pad);
    Multiples(c, c, cfg.pad);
    OffsetValue(cfg, c);
    OffsetValue(cfg, c + 1);
    OffsetValue(cfg, cfg.p);
  }

  lemma OutputElement<T(!new)>(cfg: Config<T>, s: State<T>, r: nat, k: nat, c: nat, e: nat, j: nat)
    requires Inv(cfg, s) && r < cfg.p && k < |s.outs[r]|
    requires c < cfg.p && e < Live(cfg, c) && j == Offset(cfg, c) + e && j < cfg.n
    ensures j < |s.outs[r][k]| == Offset(cfg, cfg.p)
    ensures s.outs[r][k][j] == RingFold(cfg.op, Column(cfg, k, j), cfg.p, c, cfg.p - 1)
  {
    assert OutputsAt(cfg, s, r);
    ResultElement(cfg, k, cfg.p, c, e);
    PartialElement(cfg, k, c, cfg.p - 1, e);
  }

  /** MAIN RESULT.  Every output of every rank is exact: element `j`, in chunk `c`, is
      x[c-1] op (x[c-2] op (... op x[c])) of that execution's inputs.  No law of `op` is
      assumed, and the value does not depend on the rank, so all ranks agree. */
  lemma OutputIsRingFold<T(!new)>(cfg: Config<T>, s: State<T>, r: nat, k: nat, j: nat)
    requires Reachable(cfg, s) && cfg.n <= cfg.p * cfg.pad
    requires Shape(cfg, s) && r < cfg.p && k < |s.outs[r]| && j < cfg.n
    ensures 0 < cfg.pad && ChunkOf(cfg.pad, j) < cfg.p && |s.outs[r][k]| == cfg.n
    ensures s.outs[r][k][j] == RingFold(cfg.op, Column(cfg, k, j), cfg.p, ChunkOf(cfg.pad, j), cfg.p - 1)
  {
    ReachableInv(cfg, s);
    Covered(cfg, j);
    OutputElement(cfg, s, r, k, ChunkOf(cfg.pad, j), PlaceOf(cfg.pad, j), j);
  }

  lemma {:induction false} PeelInnermost<T(!new)>(op: (T, T) -> T, f: nat -> T, p: nat, c: nat, j: nat)
    requires Associative(op) && c < p && 1 <= j < p
    ensures RingFold(op, f, p, c, j) == op(RingFold(op, f, p, Next(p, c), j - 1), f(c))
  {
    if j == 1 {
    } else {
      PeelInnermost(op, f, p, c, j - 1);
      assert Forth(p, c, j) == Forth(p, Next(p, c), j - 1);
      assert AssociativeAt(op, f(Forth(p, c, j)), RingFold(op, f, p, Next(p, c), j - 2), f(c));
    }
  }

  lemma RotateOnce<T(!new)>(op: (T, T) -> T, f: nat -> T, p: nat, c: nat)
    requires Associative(op) && Commutative(op) && 2 <= p && c < p
    ensures RingFold(op, f, p, c, p - 1) == RingFold(op, f, p, Next(p, c), p - 1)
  {
    PeelInnermost(op, f, p, c, p - 1);
    assert Forth(p, Next(p, c), p - 1) == c;
    assert CommutativeAt(op, f(c), RingFold(op, f, p, Next(p, c), p - 2));
  }

  lemma {:induction false} Rotate<T(!new)>(op: (T, T) -> T, f: nat -> T, p: nat, c: nat)
    requires Associative(op) && Commutative(op) && 2 <= p && c < p
    ensures RingFold(op, f, p, c, p - 1) == RingFold(op, f, p, 0, p - 1)
    decreases p - c
  {
    if c == 0 {
    } else {
      RotateOnce(op, f, p, c);
      if Next(p, c) != 0 {
        Rotate(op, f, p, Next(p, c));
      }
    }
  }

  /** For an associative and commutative `op` the output is the reduction over all ranks. */
  lemma OutputIsReduction<T(!new)>(cfg: Config<T>, s: State<T>, r: nat, k: nat, j: nat)
    requires Reachable(cfg, s) && cfg.n <= cfg.p * cfg.pad
    requires Associative(cfg.op) && Commutative(cfg.op)
    requires r < cfg.p && Shape(cfg, s) && k < |s.outs[r]| && j < cfg.n
    ensures |s.outs[r][k]| == cfg.n
    ensures s.outs[r][k][j] == RingFold(cfg.op, Column(cfg, k, j), cfg.p, 0, cfg.p - 1)
  {
    OutputIsRingFold(cfg, s, r, k, j);
    Rotate(cfg.op, Column(cfg, k, j), cfg.p, ChunkOf(cfg.pad, j));
  }

  // ----- hazards -----

  /** The cells that the next call on rank `r` reads or writes. */
  ghost predicate Uses<T>(cfg: Config<T>, s: State<T>, r: nat, cell: Cell)
    requires Shape(cfg, s) && r < cfg.p
  {
    var ctl := s.ctl[r];
    match ctl.phase
    case Initialized => cell.Src? && cell.c < cfg.p
    case Ready => false
    case Running =>
      ctl.step < cfg.p - 1 && Red(ctl.index) in s.net.procs[r].notes && cell.c == ctl.index
    case Finished => cell.Src? && cell.c < cfg.p
  }

  lemma SourceOf<T>(cfg: Config<T>, s: State<T>, t: Msg)
    requires Counts(cfg, s) && t in s.net.pending && t.Write?
    ensures t.src < cfg.p && t.dst == Next(cfg.p, t.src) && t.slot.c < cfg.p
    ensures var m, c := Number(cfg.p, t.dst, t.slot), t.slot.c;
            && m <= 2 * cfg.p - 3 && t == Into(cfg.p, t.dst, m) && t.from == Src(c)
            && (m <= cfg.p - 2 ==> t.into == Tgt(c) && t.slot == Red(c))
            && (m > cfg.p - 2 ==> t.into == Src(c) && t.slot == Gat(c))
  {
    assert Legitimate(cfg.p, t);
  }

  /** A rank whose next call uses a cell has no reduce transfer pending from or into it ... */
  lemma UsedNotReduced<T>(cfg: Config<T>, s: State<T>, r: nat, cell: Cell, x: nat, m: nat)
    requires Counts(cfg, s) && r < cfg.p && Uses(cfg, s, r, cell)
    requires x < cfg.p && m <= cfg.p - 2 && Into(cfg.p, x, m) in s.net.pending
    ensures !Touches(Into(cfg.p, x, m), r, cell)
  {
    NumberInto(cfg.p, x, m);
    ReduceInFlight(cfg, s, x, m);
    NotRaised(cfg, s, Into(cfg.p, x, m));
  }

  /** ... and no gather transfer. */
  lemma UsedNotGathered<T>(cfg: Config<T>, s: State<T>, r: nat, cell: Cell, x: nat, d: nat)
    requires Counts(cfg, s) && r < cfg.p && Uses(cfg, s, r, cell)
    requires x < cfg.p && d <= cfg.p - 2 && Into(cfg.p, x, cfg.p - 1 + d) in s.net.pending
    ensures !Touches(Into(cfg.p, x, cfg.p - 1 + d), r, cell)
  {
    GatherInFlight(cfg, s, x, d);
  }

  lemma UsedNotTouched<T>(cfg: Config<T>, s: State<T>, r: nat, cell: Cell, t: Msg)
    requires Counts(cfg, s) && r < cfg.p && Uses(cfg, s, r, cell) && t in s.net.pending && t.Write?
    ensures !Touches(t, r, cell)
  {
    SourceOf(cfg, s, t);
    var m := Number(cfg.p, t.dst, t.slot);
    if m <= cfg.p - 2 {
      UsedNotReduced(cfg, s, r, cell, t.dst, m);
    } else {
      UsedNotGathered(cfg, s, r, cell, t.dst, m - (cfg.p - 1));
    }
  }

  /** No pending transfer reads or writes a cell that the next call on the rank uses. */
  lemma CallsDoNotRace<T(!new)>(cfg: Config<T>, s: State<T>, r: nat, cell: Cell, t: Msg)
    requires Reachable(cfg, s) && Shape(cfg, s) && r < cfg.p && Uses(cfg, s, r, cell) && t in s.net.pending
    ensures !Touches(t, r, cell)
  {
    ReachableInv(cfg, s);
    if t.Write? { UsedNotTouched(cfg, s, r, cell, t); }
  }

  lemma SameTarget<T>(cfg: Config<T>, s: State<T>, t: Msg, u: Msg)
    requires Counts(cfg, s) && t in s.net.pending && u in s.net.pending && t.Write? && u.Write?
    requires t.dst == u.dst && t.into == u.into
    ensures t == u
  {
    SourceOf(cfg, s, t);
    SourceOf(cfg, s, u);
  }

  /** The next transfer of a chunk whose gather transfer `d` hops from home is under way. */
  lemma NextHop(p: nat, r: nat, c: nat, slot: Slot)
    requires 2 <= p && r < p && c < p && Dist(p, r, c) <= p - 2 && !slot.Ack? && slot.c == c
    ensures Dist(p, Next(p, r), c) == Dist(p, r, c) + 1
    ensures Number(p, Next(p, r), slot) == if slot.Red? then Dist(p, r, c) else p + Dist(p, r, c)
  {}

  /** The next transfer of that chunk is not under way. */
  lemma NextNotSent<T>(cfg: Config<T>, s: State<T>, r: nat, c: nat, slot: Slot)
    requires Counts(cfg, s) && r < cfg.p && c < cfg.p && Dist(cfg.p, r, c) <= cfg.p - 2
    requires 0 < InFlight(s.net, Into(cfg.p, r, cfg.p - 1 + Dist(cfg.p, r, c)))
    requires !slot.Ack? && slot.c == c && Number(cfg.p, Next(cfg.p, r), slot) <= 2 * cfg.p - 3
    ensures Into(cfg.p, Next(cfg.p, r), Number(cfg.p, Next(cfg.p, r), slot)) !in s.net.pending
  {
    NextHop(cfg.p, r, c, slot);
    NoneNext(cfg, s, r, Dist(cfg.p, r, c));
  }

  lemma NoneNext<T>(cfg: Config<T>, s: State<T>, r: nat, d: nat)
    requires Counts(cfg, s) && r < cfg.p && d <= cfg.p - 2
    requires 0 < InFlight(s.net, Into(cfg.p, r, cfg.p - 1 + d))
    ensures Into(cfg.p, Next(cfg.p, r), d) !in s.net.pending
    ensures d < cfg.p - 2 ==> Into(cfg.p, Next(cfg.p, r), cfg.p + d) !in s.net.pending
  {
    GatherAlone(cfg, s, r, d);
  }

  lemma NextReads<T>(cfg: Config<T>, s: State<T>, t: Msg, u: Msg)
    requires Counts(cfg, s) && t in s.net.pending && u in s.net.pending && t.Write? && u.Write?
    ensures !(u.src == t.dst && u.from == t.into)
  {
    SourceOf(cfg, s, t);
    SourceOf(cfg, s, u);
    if u.src == t.dst && u.from == t.into {
      assert t == Into(cfg.p, t.dst, cfg.p - 1 + Dist(cfg.p, t.dst, t.slot.c));
      NextNotSent(cfg, s, t.dst, t.slot.c, u.slot);
    }
  }

  /** A delivery never overwrites a cell that another pending transfer still has to read or write. */
  lemma DeliveriesDoNotRace<T(!new)>(cfg: Config<T>, s: State<T>, t: Msg, u: Msg)
    requires Reachable(cfg, s) && t in s.net.pending && u in s.net.pending && t != u && t.Write?
    ensures !Touches(u, t.dst, t.into)
  {
    ReachableInv(cfg, s);
    if Touches(u, t.dst, t.into) {
      NextReads(cfg, s, t, u);
      SameTarget(cfg, s, t, u);
    }
  }

  /** A notification is raised only when it is down, and no transfer is posted twice: data that
      has arrived and is not yet consumed is never overwritten, and no arrival is lost. */
  lemma NoOverrun<T(!new)>(cfg: Config<T>, s: State<T>, t: Msg)
    requires Reachable(cfg, s) && t in s.net.pending
    ensures Deliverable(s.net, t) && s.net.pending[t] == 1 && t.slot !in s.net.procs[t.dst].notes
  {
    ReachableInv(cfg, s);
    NotRaised(cfg, s, t);
    if t.Write? { SourceOf(cfg, s, t); }
  }

  // ----- progress -----

  /** Start and productive triggers performed by `r`: 2p for every finished execution. */
  ghost function Clock<T>(cfg: Config<T>, s: State<T>, r: nat): nat
    requires Shape(cfg, s) && r < cfg.p
  {
    s.rounds[r] * (2 * cfg.p) + Pos(s, r)
  }

  ghost predicate Before<T>(s: State<T>, x: nat, y: nat)
    requires x < |s.ctl| == |s.rounds| && y < |s.ctl|
  {
    s.rounds[x] < s.rounds[y] || (s.rounds[x] == s.rounds[y] && Pos(s, x) <= Pos(s, y))
  }

  lemma {:induction false} Slowest<T>(s: State<T>, n: nat) returns (r: nat)
    requires 0 < n <= |s.ctl| == |s.rounds|
    ensures r < n && forall x :: 0 <= x < n ==> Before(s, r, x)
  {
    r := 0;
    if n == 1 {
    } else {
      var q := Slowest(s, n - 1);
      r := if Before(s, q, n - 1) then q else n - 1;
      forall x | 0 <= x < n ensures Before(s, r, x) {
        assert x < n - 1 ==> Before(s, q, x);
      }
    }
  }

  /** Deadlock freedom: as long as every rank has started execution `k` and rank `z` has not finished
      it, a delivery is possible or the notification that some running rank polls has been raised.
      Other ranks may have finished that execution, copied out, or gone on to later ones. */
  lemma NoDeadlock<T(!new)>(cfg: Config<T>, s: State<T>, k: nat, z: nat)
    requires Reachable(cfg, s) && Shape(cfg, s) && z < cfg.p && s.rounds[z] == k
    requires forall r :: 0 <= r < cfg.p ==> s.rounds[r] > k || (s.rounds[r] == k && s.ctl[r].phase.Running?)
    ensures
      || (exists t :: Deliverable(s.net, t))
      || (exists r :: 0 <= r < cfg.p && s.ctl[r].phase.Running? && Step(cfg, s, DoTrigger(r)) != s)
  {
    ReachableInv(cfg, s);
    if s.net.pending != multiset{} {
      var t :| t in s.net.pending;
      NoOverrun(cfg, s, t);
    } else {
      var r := Slowest(s, cfg.p);
      assert Before(s, r, z);
      SlowestAdvances(cfg, s, r);
    }
  }

  /** The notification that the slowest rank polls is raised. */
  lemma SlowestIsServed<T>(cfg: Config<T>, s: State<T>, r: nat)
    requires Counts(cfg, s) && s.net.pending == multiset{} && r < cfg.p && s.ctl[r].phase.Running?
    requires Before(s, r, Prev(cfg.p, r)) && Before(s, r, Next(cfg.p, r))
    ensures Awaited(cfg.p, r, s.ctl[r].step) in s.net.procs[r].notes
  {
    var i, n := s.ctl[r].step, Next(cfg.p, r);
    if i == 2 * (cfg.p - 1) {
      assert AckAt(cfg, s, n);
    } else {
      assert LinkAt(cfg, s, r, i);
    }
  }

  lemma SlowestAdvances<T>(cfg: Config<T>, s: State<T>, r: nat)
    requires Inv(cfg, s) && s.net.pending == multiset{} && r < cfg.p && s.ctl[r].phase.Running?
    requires Before(s, r, Prev(cfg.p, r)) && Before(s, r, Next(cfg.p, r))
    ensures Step(cfg, s, DoTrigger(r)) != s
  {
    SlowestIsServed(cfg, s, r);
    if s.ctl[r].step == 2 * (cfg.p - 1) {
      FinishMoves(cfg, s, r);
    } else {
      AdvanceOutcome(cfg, r, s.ctl[r], s.net.procs[r]);
    }
    assert Step(cfg, s, DoTrigger(r)).ctl[r] != s.ctl[r];
  }

  ghost function TotalClock<T>(cfg: Config<T>, s: State<T>, n: nat): nat
    requires Shape(cfg, s) && n <= cfg.p
  {
    if n == 0 then 0 else TotalClock(cfg, s, n - 1) + Clock(cfg, s, n - 1)
  }

  lemma {:induction false} TotalClockStep<T>(cfg: Config<T>, s: State<T>, s': State<T>, r: nat, n: nat)
    requires Shape(cfg, s) && Shape(cfg, s') && r < cfg.p && n <= cfg.p
    requires forall x :: 0 <= x < cfg.p ==> Clock(cfg, s', x) == Clock(cfg, s, x) + if x == r then 1 else 0
    ensures TotalClock(cfg, s', n) == TotalClock(cfg, s, n) + if r < n then 1 else 0
  {
    if n == 0 {
    } else {
      TotalClockStep(cfg, s, s', r, n - 1);
    }
  }

  /** Work left when every rank is to finish `rounds` executions. */
  ghost function Measure<T>(cfg: Config<T>, s: State<T>, rounds: nat): int
    requires Shape(cfg, s)
  {
    2 * (cfg.p * (rounds * (2 * cfg.p)) - TotalClock(cfg, s, cfg.p)) + |s.net.pending|
  }

  lemma {:induction false} TotalClockBound<T>(cfg: Config<T>, s: State<T>, bound: nat, n: nat)
    requires Shape(cfg, s) && n <= cfg.p && forall r :: 0 <= r < cfg.p ==> Clock(cfg, s, r) <= bound
    ensures TotalClock(cfg, s, n) <= n * bound
  {
    if n == 0 {
    } else {
      TotalClockBound(cfg, s, bound, n - 1);
      assert n * bound == (n - 1) * bound + bound;
    }
  }

  lemma TriggerClock<T>(cfg: Config<T>, s: State<T>, r: nat, s': State<T>)
    requires Inv(cfg, s) && r < cfg.p && Enabled(cfg, s, DoTrigger(r))
    requires s' == Step(cfg, s, DoTrigger(r)) && s' != s && Shape(cfg, s')
    ensures Clock(cfg, s', r) == Clock(cfg, s, r) + 1
    ensures |s'.net.pending| <= |s.net.pending| + 1
  {
    if s.ctl[r].step == 2 * (cfg.p - 1) {
      FinishMoves(cfg, s, r);
      assert (s.rounds[r] + 1) * (2 * cfg.p) == s.rounds[r] * (2 * cfg.p) + 2 * cfg.p;
    } else {
      AdvanceOutcome(cfg, r, s.ctl[r], s.net.procs[r]);
      var o := Trigger(cfg, r, s.ctl[r], s.net.procs[r]);
      if o.posts == [] { NothingHappens(s, r, o); }
    }
  }

  /** A start or productive trigger advances exactly the caller's clock, by one. */
  lemma ClockAdvances<T>(cfg: Config<T>, s: State<T>, r: nat, a: Action, s': State<T>)
    requires Inv(cfg, s) && r < cfg.p && (a == DoStart(r) || a == DoTrigger(r)) && Enabled(cfg, s, a)
    requires s' == Step(cfg, s, a) && s' != s && Shape(cfg, s')
    ensures forall x :: 0 <= x < cfg.p ==> Clock(cfg, s', x) == Clock(cfg, s, x) + if x == r then 1 else 0
    ensures |s'.net.pending| <= |s.net.pending| + 1
  {
    if a == DoTrigger(r) { TriggerClock(cfg, s, r, s'); }
    forall x | 0 <= x < cfg.p && x != r ensures Clock(cfg, s', x) == Clock(cfg, s, x) {
      assert s'.ctl[x] == s.ctl[x] && s'.rounds[x] == s.rounds[x];
    }
  }

  /** Every delivery, start and productive trigger lowers the measure; the other calls keep it. */
  lemma MeasureDecreases<T(!new)>(cfg: Config<T>, s: State<T>, a: Action, rounds: nat)
    requires Reachable(cfg, s) && Shape(cfg, s) && Enabled(cfg, s, a)
    ensures Shape(cfg, Step(cfg, s, a))
    ensures var before, after := Measure(cfg, s, rounds), Measure(cfg, Step(cfg, s, a), rounds);
            && (a.DoCopyIn? || a.DoCopyOut? ==> after == before)
            && (a.DoDeliver? || a.DoStart? || (a.DoTrigger? && Step(cfg, s, a) != s) ==> after < before)
  {
    ReachableInv(cfg, s);
    StepInv(cfg, s, a);
    var s' := Step(cfg, s, a);
    if a.DoStart? || (a.DoTrigger? && s' != s) {
      ClockAdvances(cfg, s, a.r, a, s');
      TickMeasure(cfg, s, s', a.r, rounds);
    } else {
      TotalClockSame(cfg, s, s', cfg.p);
    }
  }

  /** A tick of one clock pays for the transfer that goes with it. */
  lemma TickMeasure<T>(cfg: Config<T>, s: State<T>, s': State<T>, r: nat, rounds: nat)
    requires Shape(cfg, s) && Shape(cfg, s') && r < cfg.p && |s'.net.pending| <= |s.net.pending| + 1
    requires forall x :: 0 <= x < cfg.p ==> Clock(cfg, s', x) == Clock(cfg, s, x) + if x == r then 1 else 0
    ensures Measure(cfg, s', rounds) < Measure(cfg, s, rounds)
  {
    TotalClockStep(cfg, s, s', r, cfg.p);
  }

  /** The measure stays non-negative until the ranks have finished `rounds` executions. */
  lemma MeasureBounded<T>(cfg: Config<T>, s: State<T>, rounds: nat)
    requires Shape(cfg, s) && forall r :: 0 <= r < cfg.p ==> Clock(cfg, s, r) <= rounds * (2 * cfg.p)
    ensures 0 <= Measure(cfg, s, rounds)
  {
    TotalClockBound(cfg, s, rounds * (2 * cfg.p), cfg.p);
  }

  lemma {:induction false} TotalClockSame<T>(cfg: Config<T>, s: State<T>, s': State<T>, n: nat)
    requires Shape(cfg, s) && Shape(cfg, s') && n <= cfg.p
    requires forall x :: 0 <= x < cfg.p ==> Pos(s', x) == Pos(s, x) && s'.rounds[x] == s.rounds[x]
    ensures TotalClock(cfg, s', n) == TotalClock(cfg, s, n)
  {
    if n == 0 {
    } else {
      TotalClockSame(cfg, s, s', n - 1);
    }
  }
}
