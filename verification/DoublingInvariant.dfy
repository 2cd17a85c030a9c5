/** The invariant of the recursive-doubling machine: every transfer is balanced against the
    progress of its sender and receiver, and every cell holds the expected partial reduction. */
module DoublingInvariant {
  import opened Bits
  import opened Reduction
  import opened Transport
  import opened RecursiveDoubling

  // ----- the counts -----

  function B(b: bool): nat {
    if b then 1 else 0
  }

  /** Progress of a rank: an active rank is at 1 + 2i while it waits for data in iteration i, at
      2 + 2i while it waits for the ack, then at 2k + 1, and at 2k + 2 when done. */
  ghost function Level<T>(cfg: Config<T>, s: State<T>, x: nat): nat
    requires cfg.Valid() && x < |s.ctl|
  {
    var ctl := s.ctl[x];
    if IsOdd(cfg, x) then
      if ctl.stage.NotStarted? then 0 else 1 + B(ctl.done)
    else
      match ctl.stage
      case NotStarted => 0
      case InitialStep => 0
      case WaitForData => 1 + 2 * ctl.iteration
      case WaitForAck => 2 + 2 * ctl.iteration
      case FinalStep => 2 * cfg.k + 1 + B(ctl.done)
  }

  /** A transfer the algorithm can post: it is determined by its destination and notification. */
  ghost predicate Legitimate<T>(cfg: Config<T>, t: Msg)
    requires cfg.Valid()
  {
    var y := t.dst;
    y < cfg.p &&
    match t.slot
    case Dat(i) => IsActive(cfg, y) && i < cfg.k && t == Write(Neighbor(cfg, y, i), Src, y, Tgt(i), Dat(i))
    case Ack(i) => IsActive(cfg, y) && i < cfg.k && t == Notify(y, Ack(i))
    case FoldDat => if IsEven(cfg, y) then t == FoldIn(y + 1) else IsOdd(cfg, y) && t == FoldOut(y - 1)
    case FoldAck => IsEven(cfg, y) && t == FoldDone(y + 1)
  }

  ghost function Sender<T>(cfg: Config<T>, t: Msg): nat
    requires cfg.Valid() && Legitimate(cfg, t)
  {
    match t.slot
    case Dat(i) => Neighbor(cfg, t.dst, i)
    case Ack(i) => Neighbor(cfg, t.dst, i)
    case FoldDat => if IsEven(cfg, t.dst) then t.dst + 1 else t.dst - 1
    case FoldAck => t.dst + 1
  }

  lemma SenderInGroup<T>(cfg: Config<T>, t: Msg)
    requires cfg.Valid() && Legitimate(cfg, t)
    ensures Sender(cfg, t) < cfg.p && (t.Write? ==> Sender(cfg, t) == t.src)
    ensures (t.slot.Dat? || t.slot.Ack? ==> IsActive(cfg, Sender(cfg, t)))
  {
    if t.slot.Dat? || t.slot.Ack? { NeighborPairs(cfg, t.dst, t.slot.i); }
  }

  /** The level at which a transfer is posted by its sender ... */
  ghost function SendLevel<T>(cfg: Config<T>, t: Msg): nat
    requires cfg.Valid() && Legitimate(cfg, t)
  {
    match t.slot
    case Dat(i) => 1 + 2 * i
    case Ack(i) => 2 + 2 * i
    case FoldDat => if IsEven(cfg, t.dst) then 1 else 2 * cfg.k + 1
    case FoldAck => 2
  }

  /** ... and the level at which its destination has consumed it. */
  ghost function ConsumeLevel<T>(cfg: Config<T>, t: Msg): nat
    requires cfg.Valid() && Legitimate(cfg, t)
  {
    match t.slot
    case Dat(i) => 2 + 2 * i
    case Ack(i) => 3 + 2 * i
    case FoldDat => if IsEven(cfg, t.dst) then 1 else 2
    case FoldAck => 2 * cfg.k + 2
  }

  ghost predicate Balanced<T>(cfg: Config<T>, s: State<T>, t: Msg)
    requires Shape(cfg, s)
  {
    Legitimate(cfg, t) && Sender(cfg, t) < cfg.p ==>
      InFlight(s.net, t)
      == B(Level(cfg, s, Sender(cfg, t)) >= SendLevel(cfg, t)) - B(Level(cfg, s, t.dst) >= ConsumeLevel(cfg, t))
  }

  ghost predicate Counts<T>(cfg: Config<T>, s: State<T>) {
    && Shape(cfg, s)
    && (forall t :: t in s.net.pending ==> Legitimate(cfg, t))
    && forall t :: Balanced(cfg, s, t)
  }

  // ----- the contents -----

  /** What relabelled rank `j` holds after `i` iterations. */
  ghost function Value<T>(cfg: Config<T>, j: nat, i: nat): (v: seq<T>)
    requires cfg.Valid()
    ensures |v| == cfg.n
    decreases i
  {
    if i == 0 then
      if j < cfg.Rest() then Zip(cfg.op, cfg.input(2 * j), cfg.input(2 * j + 1)) else cfg.input(j + cfg.Rest())
    else Zip(cfg.op, Value(cfg, j, i - 1), Value(cfg, Flip(j, i - 1), i - 1))
  }

  ghost predicate SourceAt<T>(cfg: Config<T>, s: State<T>, x: nat)
    requires Shape(cfg, s) && x < cfg.p
  {
    var mem := s.net.procs[x].mem;
    if IsOdd(cfg, x) then mem[FoldSrc] == cfg.input(x)
    else mem[Src] == if Level(cfg, s, x) == 0 then cfg.input(x) else Value(cfg, Relabel(cfg, x), s.ctl[x].iteration)
  }

  ghost predicate TargetAt<T>(cfg: Config<T>, s: State<T>, x: nat, i: nat)
    requires Shape(cfg, s) && x < cfg.p && i < cfg.k
  {
    IsActive(cfg, x) && (Dat(i) in s.net.procs[x].notes || Level(cfg, s, x) == 2 + 2 * i) ==>
      s.net.procs[x].mem[Tgt(i)] == Value(cfg, Flip(Relabel(cfg, x), i), i)
  }

  ghost predicate FoldAt<T>(cfg: Config<T>, s: State<T>, x: nat)
    requires Shape(cfg, s) && x < cfg.p
  {
    var proc := s.net.procs[x];
    && (IsEven(cfg, x) && FoldDat in proc.notes ==> proc.mem[FoldTgt] == cfg.input(x + 1))
    && (IsOdd(cfg, x) && (FoldDat in proc.notes || s.ctl[x].done) ==>
          proc.mem[FoldTgt] == Value(cfg, Relabel(cfg, x), cfg.k))
  }

  ghost predicate ContentsAt<T>(cfg: Config<T>, s: State<T>, x: nat)
    requires Shape(cfg, s) && x < cfg.p
  {
    && SourceAt(cfg, s, x) && FoldAt(cfg, s, x)
    && forall i :: 0 <= i < cfg.k ==> TargetAt(cfg, s, x, i)
  }

  ghost predicate Inv<T>(cfg: Config<T>, s: State<T>) {
    && Counts(cfg, s)
    && forall x :: 0 <= x < cfg.p ==> ContentsAt(cfg, s, x)
  }

  // ----- preservation of the counts -----

  lemma InitInv<T>(cfg: Config<T>, s: State<T>)
    requires Init(cfg, s)
    ensures Inv(cfg, s)
  {
    forall x | 0 <= x < cfg.p ensures ContentsAt(cfg, s, x) {
      var cell := if IsActive(cfg, x) then Src else FoldSrc;
      assert s.net.procs[x].mem[cell := cfg.input(x)] == s.net.procs[x].mem;
      assert s.net.procs[x].mem[cell] == cfg.input(x);
    }
    forall t ensures Balanced(cfg, s, t) {}
  }

  lemma LocalShape<T>(cfg: Config<T>, s: State<T>, a: Action)
    requires Shape(cfg, s) && Enabled(cfg, s, a) && !a.DoDeliver?
    ensures Allocated(cfg, a.x, Local(cfg, s, a).proc) && ControlOk(cfg, a.x, Local(cfg, s, a).ctl)
  {}

  lemma StepShape<T>(cfg: Config<T>, s: State<T>, a: Action)
    requires Shape(cfg, s) && Enabled(cfg, s, a) && !a.DoDeliver?
    ensures Shape(cfg, Step(cfg, s, a))
  {
    LocalShape(cfg, s, a);
  }

  /** Rank `x` is about to move to level `u`: does it post `t`, and does it consume its slot? */
  ghost predicate PostsAt<T>(cfg: Config<T>, x: nat, u: nat, t: Msg)
    requires cfg.Valid()
  {
    Legitimate(cfg, t) && Sender(cfg, t) == x && SendLevel(cfg, t) == u
  }

  ghost predicate ConsumesAt<T>(cfg: Config<T>, x: nat, u: nat, t: Msg)
    requires cfg.Valid()
  {
    Legitimate(cfg, t) && t.dst == x && ConsumeLevel(cfg, t) == u
  }

  /** What a productive call does: it moves the rank up one level, posts what is due at that
      level and consumes what is due at that level. */
  ghost predicate Advances<T>(cfg: Config<T>, s: State<T>, x: nat, o: Outcome<T>, consumed: set<Slot>)
    requires Shape(cfg, s) && x < cfg.p
  {
    var s' := State(Act(s.net, x, o.proc, o.posts), s.ctl[x := o.ctl]);
    var u := Level(cfg, s', x);
    && u == Level(cfg, s, x) + 1
    && consumed <= s.net.procs[x].notes && o.proc.notes == s.net.procs[x].notes - consumed
    && (forall t :: multiset(o.posts)[t] == B(PostsAt(cfg, x, u, t)))
    && (forall t :: Legitimate(cfg, t) && t.dst == x ==> (t.slot in consumed <==> ConsumesAt(cfg, x, u, t)))
  }

  /** A call that changes no count. */
  ghost predicate Idles<T>(cfg: Config<T>, s: State<T>, x: nat, o: Outcome<T>)
    requires Shape(cfg, s) && x < cfg.p
  {
    var s' := State(Act(s.net, x, o.proc, o.posts), s.ctl[x := o.ctl]);
    o.posts == [] && o.proc.notes == s.net.procs[x].notes && Level(cfg, s', x) == Level(cfg, s, x)
  }

  lemma AdvanceBalance<T>(cfg: Config<T>, s: State<T>, s': State<T>, x: nat, o: Outcome<T>, consumed: set<Slot>, t: Msg)
    requires Shape(cfg, s) && x < cfg.p && Advances(cfg, s, x, o, consumed) && Balanced(cfg, s, t)
    requires s' == State(Act(s.net, x, o.proc, o.posts), s.ctl[x := o.ctl]) && Shape(cfg, s')
    ensures Balanced(cfg, s', t)
  {
    if Legitimate(cfg, t) {
      var u := Level(cfg, s', x);
      assert multiset(o.posts)[t] == B(PostsAt(cfg, x, u, t));
      assert t.dst == x ==> (t.slot in consumed <==> ConsumesAt(cfg, x, u, t));
      ActMovement(s.net, x, o.proc, o.posts, consumed, t);
      LevelBalance(cfg, s, s', x, t);
    }
  }

  /** Levels after a step of rank `x`. */
  lemma LevelKept<T>(cfg: Config<T>, s: State<T>, s': State<T>, y: nat)
    requires Shape(cfg, s) && Shape(cfg, s') && y < cfg.p && s'.ctl[y] == s.ctl[y]
    ensures Level(cfg, s', y) == Level(cfg, s, y)
  {}

  lemma LevelMoves<T>(cfg: Config<T>, s: State<T>, s': State<T>, x: nat, y: nat)
    requires Shape(cfg, s) && Shape(cfg, s') && x < cfg.p && y < cfg.p
    requires forall z :: 0 <= z < cfg.p && z != x ==> s'.ctl[z] == s.ctl[z]
    requires Level(cfg, s', x) == Level(cfg, s, x) + 1
    ensures Level(cfg, s', y) == Level(cfg, s, y) + B(y == x)
  {
    if y != x { LevelKept(cfg, s, s', y); }
  }

  lemma OneUp(l: nat, moves: bool, n: nat)
    ensures B(l + B(moves) >= n) == B(l >= n) + B(moves && l + 1 == n)
  {}

  /** A rank that goes up one level, with what it posts and consumes at that level. */
  lemma LevelBalance<T>(cfg: Config<T>, s: State<T>, s': State<T>, x: nat, t: Msg)
    requires Shape(cfg, s) && Shape(cfg, s') && x < cfg.p && Legitimate(cfg, t) && Balanced(cfg, s, t)
    requires forall y :: 0 <= y < cfg.p && y != x ==> s'.ctl[y] == s.ctl[y]
    requires Level(cfg, s', x) == Level(cfg, s, x) + 1
    requires var u := Level(cfg, s', x);
             InFlight(s'.net, t) == InFlight(s.net, t) + B(PostsAt(cfg, x, u, t)) - B(ConsumesAt(cfg, x, u, t))
    ensures Balanced(cfg, s', t)
  {
    var y := Sender(cfg, t);
    if y < cfg.p {
      LevelMoves(cfg, s, s', x, y);
      LevelMoves(cfg, s, s', x, t.dst);
      OneUp(Level(cfg, s, y), y == x, SendLevel(cfg, t));
      OneUp(Level(cfg, s, t.dst), t.dst == x, ConsumeLevel(cfg, t));
    }
  }

  lemma AdvanceCounts<T>(cfg: Config<T>, s: State<T>, s': State<T>, x: nat, o: Outcome<T>, consumed: set<Slot>)
    requires Counts(cfg, s) && x < cfg.p && Advances(cfg, s, x, o, consumed)
    requires s' == State(Act(s.net, x, o.proc, o.posts), s.ctl[x := o.ctl]) && Shape(cfg, s')
    ensures Counts(cfg, s')
  {
    forall t ensures Balanced(cfg, s', t) {
      AdvanceBalance(cfg, s, s', x, o, consumed, t);
    }
    forall t | t in s'.net.pending ensures Legitimate(cfg, t) {
      assert multiset(o.posts)[t] == B(PostsAt(cfg, x, Level(cfg, s', x), t));
    }
  }

  lemma IdleBalance<T>(cfg: Config<T>, s: State<T>, s': State<T>, x: nat, o: Outcome<T>, t: Msg)
    requires Shape(cfg, s) && x < cfg.p && Idles(cfg, s, x, o) && Balanced(cfg, s, t) && Legitimate(cfg, t)
    requires s' == State(Act(s.net, x, o.proc, o.posts), s.ctl[x := o.ctl]) && Shape(cfg, s')
    ensures Balanced(cfg, s', t)
  {
    ActMovement(s.net, x, o.proc, o.posts, {}, t);
    var y := Sender(cfg, t);
    if y < cfg.p {
      if y != x { LevelKept(cfg, s, s', y); }
      if t.dst != x { LevelKept(cfg, s, s', t.dst); }
    }
  }

  lemma IdleCounts<T>(cfg: Config<T>, s: State<T>, s': State<T>, x: nat, o: Outcome<T>)
    requires Counts(cfg, s) && x < cfg.p && Idles(cfg, s, x, o)
    requires s' == State(Act(s.net, x, o.proc, o.posts), s.ctl[x := o.ctl]) && Shape(cfg, s')
    ensures Counts(cfg, s')
  {
    forall t ensures Balanced(cfg, s', t) {
      assert Balanced(cfg, s, t);
      if Legitimate(cfg, t) { IdleBalance(cfg, s, s', x, o, t); }
    }
  }

  lemma SingletonPost<T>(cfg: Config<T>, x: nat, u: nat, m: Msg)
    requires cfg.Valid() && PostsAt(cfg, x, u, m)
    requires forall t :: PostsAt(cfg, x, u, t) ==> t == m
    ensures forall t :: multiset([m])[t] == B(PostsAt(cfg, x, u, t))
  {}

  lemma DataPost<T>(cfg: Config<T>, x: nat, i: nat, u: nat)
    requires cfg.Valid() && x < cfg.p && IsActive(cfg, x) && i < cfg.k && u == 1 + 2 * i
    ensures forall t :: multiset([SendData(cfg, x, i)])[t] == B(PostsAt(cfg, x, u, t))
  {
    NeighborPairs(cfg, x, i);
    forall t | PostsAt(cfg, x, u, t) ensures t == SendData(cfg, x, i) {
      if t.slot.Dat? { NeighborPairs(cfg, t.dst, t.slot.i); }
    }
    SingletonPost(cfg, x, u, SendData(cfg, x, i));
  }

  lemma AckPost<T>(cfg: Config<T>, x: nat, i: nat, u: nat)
    requires cfg.Valid() && x < cfg.p && IsActive(cfg, x) && i < cfg.k && u == 2 + 2 * i
    ensures forall t :: multiset([SendAck(cfg, x, i)])[t] == B(PostsAt(cfg, x, u, t))
  {
    NeighborPairs(cfg, x, i);
    forall t | PostsAt(cfg, x, u, t) ensures t == SendAck(cfg, x, i) {
      if t.slot.Ack? { NeighborPairs(cfg, t.dst, t.slot.i); }
    }
    SingletonPost(cfg, x, u, SendAck(cfg, x, i));
  }

  /** The posts of the folding steps: an odd rank's input and final ack, an even rank's result. */
  lemma OddFoldPost<T>(cfg: Config<T>, x: nat, u: nat)
    requires cfg.Valid() && x < cfg.p && IsOdd(cfg, x)
    ensures u == 1 ==> forall t :: multiset([FoldIn(x)])[t] == B(PostsAt(cfg, x, u, t))
    ensures u == 2 ==> forall t :: multiset([FoldDone(x)])[t] == B(PostsAt(cfg, x, u, t))
  {
    forall t | PostsAt(cfg, x, u, t) ensures t.slot.FoldDat? || t.slot.FoldAck? {
      SenderInGroup(cfg, t);
    }
    if u == 1 { SingletonPost(cfg, x, u, FoldIn(x)); }
    if u == 2 { SingletonPost(cfg, x, u, FoldDone(x)); }
  }

  lemma EvenFoldPost<T>(cfg: Config<T>, x: nat, u: nat)
    requires cfg.Valid() && x < cfg.p && IsEven(cfg, x) && u == 2 * cfg.k + 1
    ensures forall t :: multiset([FoldOut(x)])[t] == B(PostsAt(cfg, x, u, t))
  {
    SingletonPost(cfg, x, u, FoldOut(x));
  }

  lemma NoPost<T>(cfg: Config<T>, x: nat, u: nat)
    requires cfg.Valid() && x < cfg.p && IsActive(cfg, x)
    requires u == 2 * cfg.k + 2 || (u == 2 * cfg.k + 1 && IsExtra(cfg, x))
    ensures forall t :: !PostsAt(cfg, x, u, t)
  {}

  // ----- what each call does to the counts -----

  lemma StartCounts<T>(cfg: Config<T>, s: State<T>, x: nat)
    requires Counts(cfg, s) && Enabled(cfg, s, DoStart(x))
    ensures Counts(cfg, Step(cfg, s, DoStart(x)))
  {
    var o, s' := Start(cfg, x, s.net.procs[x]), Step(cfg, s, DoStart(x));
    StepShape(cfg, s, DoStart(x));
    if IsEven(cfg, x) {
      IdleCounts(cfg, s, s', x, o);
    } else {
      if IsExtra(cfg, x) { DataPost(cfg, x, 0, 1); } else { OddFoldPost(cfg, x, 1); }
      AdvanceCounts(cfg, s, s', x, o, {});
    }
  }

  lemma FoldCounts<T>(cfg: Config<T>, s: State<T>, x: nat)
    requires Counts(cfg, s) && Enabled(cfg, s, DoFold(x))
    ensures Counts(cfg, Step(cfg, s, DoFold(x)))
  {
    var o, s' := Local(cfg, s, DoFold(x)), Step(cfg, s, DoFold(x));
    StepShape(cfg, s, DoFold(x));
    if o.posts == [] {
      IdleCounts(cfg, s, s', x, o);
    } else {
      DataPost(cfg, x, 0, 1);
      AdvanceCounts(cfg, s, s', x, o, {FoldDat});
    }
  }

  /** The notification that a call polls in the main part. */
  ghost function Polls<T>(cfg: Config<T>, x: nat, ctl: Control): Slot
    requires cfg.Valid()
  {
    match ctl.stage
    case WaitForData => Dat(ctl.iteration)
    case WaitForAck => Ack(ctl.iteration)
    case _ => if IsOdd(cfg, x) then FoldDat else FoldAck
  }

  ghost predicate MainEffect<T>(cfg: Config<T>, s: State<T>, x: nat)
    requires Shape(cfg, s) && Enabled(cfg, s, DoMain(x))
  {
    var o, ctl := Local(cfg, s, DoMain(x)), s.ctl[x];
    if ctl.stage.InitialStep? then Idles(cfg, s, x, o)
    else if ctl.stage.FinalStep? && IsExtra(cfg, x) then Advances(cfg, s, x, o, {})
    else if Polls(cfg, x, ctl) !in s.net.procs[x].notes then Idles(cfg, s, x, o)
    else Advances(cfg, s, x, o, {Polls(cfg, x, ctl)})
  }

  lemma WaitDataEffect<T>(cfg: Config<T>, s: State<T>, x: nat)
    requires Shape(cfg, s) && Enabled(cfg, s, DoMain(x)) && s.ctl[x].stage.WaitForData?
    ensures MainEffect(cfg, s, x)
  {
    AckPost(cfg, x, s.ctl[x].iteration, 2 + 2 * s.ctl[x].iteration);
  }

  /** The ack of iteration `i` is what an active rank consumes at its level. */
  lemma AckConsumed<T>(cfg: Config<T>, x: nat, i: nat)
    requires cfg.Valid() && x < cfg.p && IsActive(cfg, x) && i < cfg.k
    ensures forall t :: Legitimate(cfg, t) && t.dst == x ==> (t.slot in {Ack(i)} <==> ConsumesAt(cfg, x, 3 + 2 * i, t))
  {}

  lemma NextIterationEffect<T>(cfg: Config<T>, s: State<T>, x: nat)
    requires Shape(cfg, s) && Enabled(cfg, s, DoMain(x)) && s.ctl[x].stage.WaitForAck? && s.ctl[x].iteration < cfg.k - 1
    ensures MainEffect(cfg, s, x)
  {
    var i, proc, o := s.ctl[x].iteration, s.net.procs[x], Local(cfg, s, DoMain(x));
    assert IsActive(cfg, x) && !IsOdd(cfg, x);
    if Ack(i) in proc.notes {
      assert o.ctl == Control(WaitForData, i + 1, false) && o.proc.notes == proc.notes - {Ack(i)};
      assert o.posts == [SendData(cfg, x, i + 1)];
      DataPost(cfg, x, i + 1, 3 + 2 * i);
      AckConsumed(cfg, x, i);
    }
  }

  lemma LastIterationEffect<T>(cfg: Config<T>, s: State<T>, x: nat)
    requires Shape(cfg, s) && Enabled(cfg, s, DoMain(x)) && s.ctl[x].stage.WaitForAck?
    requires s.ctl[x].iteration == cfg.k - 1
    ensures MainEffect(cfg, s, x)
  {
    if IsExtra(cfg, x) {
      NoPost(cfg, x, 2 * cfg.k + 1);
    } else {
      EvenFoldPost(cfg, x, 2 * cfg.k + 1);
    }
  }

  lemma FinalEffect<T>(cfg: Config<T>, s: State<T>, x: nat)
    requires Shape(cfg, s) && Enabled(cfg, s, DoMain(x)) && s.ctl[x].stage.FinalStep?
    ensures MainEffect(cfg, s, x)
  {
    var proc, o := s.net.procs[x], Local(cfg, s, DoMain(x));
    if IsExtra(cfg, x) {
      NoPost(cfg, x, 2 * cfg.k + 2);
    } else if Polls(cfg, x, s.ctl[x]) in proc.notes {
      FinalConsumed(cfg, x);
      if IsOdd(cfg, x) { OddFoldPost(cfg, x, 2); } else { NoPost(cfg, x, 2 * cfg.k + 2); }
    }
  }

  /** What the two ranks of a folding pair consume at their last level. */
  lemma FinalConsumed<T>(cfg: Config<T>, x: nat)
    requires cfg.Valid() && x < cfg.p
    ensures IsOdd(cfg, x) ==>
              forall t :: Legitimate(cfg, t) && t.dst == x ==> (t.slot in {FoldDat} <==> ConsumesAt(cfg, x, 2, t))
    ensures IsEven(cfg, x) ==>
              forall t :: Legitimate(cfg, t) && t.dst == x ==>
                            (t.slot in {FoldAck} <==> ConsumesAt(cfg, x, 2 * cfg.k + 2, t))
  {}

  lemma MainAdvances<T>(cfg: Config<T>, s: State<T>, x: nat)
    requires Shape(cfg, s) && Enabled(cfg, s, DoMain(x))
    ensures MainEffect(cfg, s, x)
  {
    match s.ctl[x].stage {
      case WaitForData => WaitDataEffect(cfg, s, x);
      case WaitForAck =>
        if s.ctl[x].iteration < cfg.k - 1 { NextIterationEffect(cfg, s, x); } else { LastIterationEffect(cfg, s, x); }
      case FinalStep => FinalEffect(cfg, s, x);
      case InitialStep =>
    }
  }

  lemma MainCounts<T>(cfg: Config<T>, s: State<T>, x: nat)
    requires Counts(cfg, s) && Enabled(cfg, s, DoMain(x))
    ensures Counts(cfg, Step(cfg, s, DoMain(x)))
  {
    var o, s', ctl := Local(cfg, s, DoMain(x)), Step(cfg, s, DoMain(x)), s.ctl[x];
    StepShape(cfg, s, DoMain(x));
    MainAdvances(cfg, s, x);
    if Idles(cfg, s, x, o) {
      IdleCounts(cfg, s, s', x, o);
    } else {
      AdvanceCounts(cfg, s, s', x, o,
                    if ctl.stage.FinalStep? && IsExtra(cfg, x) then {} else {Polls(cfg, x, ctl)});
    }
  }

  /** A notification is never raised while it is still raised, and nothing is posted twice. */
  lemma NotRaised<T>(cfg: Config<T>, s: State<T>, t: Msg)
    requires Counts(cfg, s) && t in s.net.pending
    ensures Legitimate(cfg, t) && Deliverable(s.net, t) && Sender(cfg, t) < cfg.p
    ensures s.net.pending[t] == 1 && t.slot !in s.net.procs[t.dst].notes
    ensures Level(cfg, s, Sender(cfg, t)) >= SendLevel(cfg, t) && Level(cfg, s, t.dst) < ConsumeLevel(cfg, t)
  {
    SenderInGroup(cfg, t);
    assert Balanced(cfg, s, t);
  }

  lemma DeliverShape<T>(cfg: Config<T>, s: State<T>, t: Msg)
    requires Counts(cfg, s) && t in s.net.pending && Deliverable(s.net, t)
    ensures Shape(cfg, Step(cfg, s, DoDeliver(t)))
  {
    assert Legitimate(cfg, t);
    SenderInGroup(cfg, t);
    var s' := Step(cfg, s, DoDeliver(t));
    assert s'.ctl == s.ctl && |s'.net.procs| == cfg.p;
    forall x | 0 <= x < cfg.p ensures Allocated(cfg, x, s'.net.procs[x]) && ControlOk(cfg, x, s'.ctl[x]) {
      assert Allocated(cfg, x, s.net.procs[x]);
      if x == t.dst { DeliverAllocated(cfg, s, t); }
    }
  }

  lemma DeliverAllocated<T>(cfg: Config<T>, s: State<T>, t: Msg)
    requires Shape(cfg, s) && Deliverable(s.net, t) && Legitimate(cfg, t) && Sender(cfg, t) < cfg.p
    ensures Allocated(cfg, t.dst, Deliver(s.net, t).procs[t.dst])
  {
    var mem, mem' := s.net.procs[t.dst].mem, Deliver(s.net, t).procs[t.dst].mem;
    assert Allocated(cfg, t.dst, s.net.procs[t.dst]);
    if t.Write? {
      assert Allocated(cfg, t.src, s.net.procs[t.src]);
      assert mem' == mem[t.into := s.net.procs[t.src].mem[t.from]];
    } else {
      assert mem' == mem;
    }
  }

  lemma SameSlot<T>(cfg: Config<T>, t: Msg, u: Msg)
    requires cfg.Valid() && Legitimate(cfg, t) && Legitimate(cfg, u) && t.dst == u.dst && t.slot == u.slot
    ensures t == u
  {}

  lemma DeliverBalance<T>(cfg: Config<T>, s: State<T>, s': State<T>, u: Msg)
    requires Shape(cfg, s) && Balanced(cfg, s, u) && Shape(cfg, s') && s'.ctl == s.ctl && Legitimate(cfg, u)
    requires InFlight(s'.net, u) == InFlight(s.net, u)
    ensures Balanced(cfg, s', u)
  {}

  lemma DeliverCounts<T>(cfg: Config<T>, s: State<T>, t: Msg)
    requires Counts(cfg, s) && Deliverable(s.net, t)
    ensures Counts(cfg, Step(cfg, s, DoDeliver(t)))
  {
    NotRaised(cfg, s, t);
    DeliverShape(cfg, s, t);
    forall u ensures Balanced(cfg, Step(cfg, s, DoDeliver(t)), u) {
      assert Balanced(cfg, s, u);
      if Legitimate(cfg, u) {
        if t.dst == u.dst && t.slot == u.slot { SameSlot(cfg, t, u); }
        DeliverMovement(s.net, t, u);
        DeliverBalance(cfg, s, Step(cfg, s, DoDeliver(t)), u);
      }
    }
  }
}
