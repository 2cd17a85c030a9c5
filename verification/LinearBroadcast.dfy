/** The linear broadcast: the root's data travels from neighbour to neighbour, straight out of the
    receive buffers.  The machine runs one execution of all ranks in any interleaving. */
module LinearBroadcast {
  import opened RingIndex
  import opened Transport

  /** A rank has one buffer: the root's source, or a target that is also the memory of the source. */
  datatype Cell = Buf

  datatype Slot = Dat | Ack

  type Msg = Transfer<Cell, Slot>
  type Proc<T> = Process<Cell, Slot, seq<T>>

  /** `iteration` is 0 before the start. */
  datatype Control = Control(iteration: nat, done: bool)

  /** The root broadcasts `input` to `p` ranks. */
  datatype Config<!T> = Config(p: nat, root: nat, input: seq<T>) {
    ghost predicate Valid() {
      2 <= p && root < p && 0 < |input|
    }
  }

  /** The distance from the root. */
  ghost function After<T>(cfg: Config<T>, r: nat): (d: nat)
    requires cfg.Valid() && r < cfg.p
    ensures d < cfg.p && (d == 0 <==> r == cfg.root)
  {
    Dist(cfg.p, r, cfg.root)
  }

  ghost predicate IsLast<T>(cfg: Config<T>, r: nat)
    requires cfg.Valid() && r < cfg.p
  {
    After(cfg, r) == cfg.p - 1
  }

  ghost predicate IsSecondLast<T>(cfg: Config<T>, r: nat)
    requires cfg.Valid() && r < cfg.p
  {
    After(cfg, r) == cfg.p - 2
  }

  lemma Neighbours<T>(cfg: Config<T>, r: nat)
    requires cfg.Valid() && r < cfg.p
    ensures !IsLast(cfg, r) ==> After(cfg, Next(cfg.p, r)) == After(cfg, r) + 1
    ensures r != cfg.root ==> After(cfg, Prev(cfg.p, r)) + 1 == After(cfg, r)
    ensures Prev(cfg.p, Next(cfg.p, r)) == r
  {}

  datatype Outcome<T> = Outcome(ctl: Control, proc: Proc<T>, posts: seq<Msg>)

  function Forward(p: nat, r: nat): Msg
    requires r < p
  {
    Write(r, Buf, Next(p, r), Buf, Dat)
  }

  function FinalAck(p: nat, r: nat): Msg
    requires r < p
  {
    Notify(Prev(p, r), Ack)
  }

  ghost function Start<T>(cfg: Config<T>, r: nat, proc: Proc<T>): Outcome<T>
    requires cfg.Valid() && r < cfg.p
  {
    Outcome(Control(1, false), proc, if r == cfg.root then [Forward(cfg.p, r)] else [])
  }

  ghost function Trigger<T>(cfg: Config<T>, r: nat, ctl: Control, proc: Proc<T>): Outcome<T>
    requires cfg.Valid() && r < cfg.p
  {
    if ctl.iteration == cfg.p then
      if !IsSecondLast(cfg, r) then Outcome(ctl.(done := true), proc, [])
      else if Ack in proc.notes then Outcome(ctl.(done := true), proc.(notes := proc.notes - {Ack}), [])
      else Outcome(ctl, proc, [])
    else if After(cfg, r) != ctl.iteration then Outcome(ctl.(iteration := ctl.iteration + 1), proc, [])
    else if Dat !in proc.notes then Outcome(ctl, proc, [])
    else
      Outcome(ctl.(iteration := ctl.iteration + 1), proc.(notes := proc.notes - {Dat}),
              [if !IsLast(cfg, r) then Forward(cfg.p, r) else FinalAck(cfg.p, r)])
  }

  // ----- all ranks -----

  datatype State<T> = State(net: Net<Cell, Slot, seq<T>>, ctl: seq<Control>)

  datatype Action = DoStart(r: nat) | DoTrigger(r: nat) | DoDeliver(t: Msg)

  ghost predicate Shape<T>(cfg: Config<T>, s: State<T>) {
    && cfg.Valid()
    && |s.net.procs| == |s.ctl| == cfg.p
    && forall r :: 0 <= r < cfg.p ==>
                     && Buf in s.net.procs[r].mem && s.ctl[r].iteration <= cfg.p
                     && (s.ctl[r].done ==> s.ctl[r].iteration == cfg.p)
  }

  ghost predicate Enabled<T>(cfg: Config<T>, s: State<T>, a: Action)
    requires Shape(cfg, s)
  {
    match a
    case DoStart(r) => r < cfg.p && s.ctl[r].iteration == 0
    case DoTrigger(r) => r < cfg.p && 0 < s.ctl[r].iteration && !s.ctl[r].done
    case DoDeliver(t) => Deliverable(s.net, t)
  }

  ghost function Local<T>(cfg: Config<T>, s: State<T>, a: Action): Outcome<T>
    requires Shape(cfg, s) && Enabled(cfg, s, a) && !a.DoDeliver?
  {
    if a.DoStart? then Start(cfg, a.r, s.net.procs[a.r]) else Trigger(cfg, a.r, s.ctl[a.r], s.net.procs[a.r])
  }

  ghost function Step<T>(cfg: Config<T>, s: State<T>, a: Action): State<T>
    requires Shape(cfg, s) && Enabled(cfg, s, a)
  {
    if a.DoDeliver? then s.(net := Deliver(s.net, a.t))
    else
      var o := Local(cfg, s, a);
      State(Act(s.net, a.r, o.proc, o.posts), s.ctl[a.r := o.ctl])
  }

  /** The root's input copied in, nothing started; the other buffers hold anything. */
  ghost predicate Init<T>(cfg: Config<T>, s: State<T>) {
    && Shape(cfg, s)
    && s.net.pending == multiset{} && s.net.procs[cfg.root].mem[Buf] == cfg.input
    && forall r :: 0 <= r < cfg.p ==> s.net.procs[r].notes == {} && s.ctl[r] == Control(0, false)
  }

  ghost predicate Transition<T>(cfg: Config<T>, s: State<T>, s': State<T>) {
    Shape(cfg, s) && exists a :: Enabled(cfg, s, a) && s' == Step(cfg, s, a)
  }

  ghost predicate IsRun<T>(cfg: Config<T>, run: seq<State<T>>) {
    && 0 < |run|
    && Init(cfg, run[0])
    && forall i :: 0 <= i < |run| - 1 ==> Transition(cfg, run[i], run[i + 1])
  }

  ghost predicate Reachable<T(!new)>(cfg: Config<T>, s: State<T>) {
    exists run :: IsRun(cfg, run) && run[|run| - 1] == s
  }

  // ----- the invariant -----

  function B(b: bool): nat {
    if b then 1 else 0
  }

  /** The rank holds the data and has passed it on, or acknowledged it. */
  ghost predicate Has<T>(cfg: Config<T>, s: State<T>, r: nat)
    requires cfg.Valid() && r < cfg.p == |s.ctl|
  {
    s.ctl[r].iteration > After(cfg, r)
  }

  ghost predicate Legitimate<T>(cfg: Config<T>, t: Msg)
    requires cfg.Valid()
  {
    && t.dst < cfg.p
    && if t.slot.Dat? then t.dst != cfg.root && t == Forward(cfg.p, Prev(cfg.p, t.dst))
       else IsSecondLast(cfg, t.dst) && t == Notify(t.dst, Ack)
  }

  ghost predicate Balanced<T>(cfg: Config<T>, s: State<T>, t: Msg)
    requires Shape(cfg, s)
  {
    Legitimate(cfg, t) ==>
      InFlight(s.net, t) == if t.slot.Dat? then B(Has(cfg, s, Prev(cfg.p, t.dst))) - B(Has(cfg, s, t.dst))
                            else B(Has(cfg, s, Next(cfg.p, t.dst))) - B(s.ctl[t.dst].done)
  }

  ghost predicate Holds<T>(cfg: Config<T>, s: State<T>, r: nat)
    requires Shape(cfg, s) && r < cfg.p
  {
    r == cfg.root || Dat in s.net.procs[r].notes || Has(cfg, s, r) ==> s.net.procs[r].mem[Buf] == cfg.input
  }

  ghost predicate Inv<T>(cfg: Config<T>, s: State<T>) {
    && Shape(cfg, s)
    && (forall t :: t in s.net.pending ==> Legitimate(cfg, t))
    && (forall t :: Balanced(cfg, s, t))
    && (forall r :: 0 <= r < cfg.p ==> Holds(cfg, s, r))
  }

  lemma InitInv<T>(cfg: Config<T>, s: State<T>)
    requires Init(cfg, s)
    ensures Inv(cfg, s)
  {
    forall t ensures Balanced(cfg, s, t) {}
    forall r | 0 <= r < cfg.p ensures Holds(cfg, s, r) {}
  }

  ghost function Consumed<T>(proc: Proc<T>, o: Outcome<T>): set<Slot> {
    proc.notes - o.proc.notes
  }

  lemma LocalFrame<T>(cfg: Config<T>, s: State<T>, a: Action)
    requires Shape(cfg, s) && Enabled(cfg, s, a) && !a.DoDeliver?
    ensures var o := Local(cfg, s, a);
            && o.proc.mem == s.net.procs[a.r].mem
            && o.proc.notes == s.net.procs[a.r].notes - Consumed(s.net.procs[a.r], o)
            && (forall t :: t in o.posts ==> Legitimate(cfg, t))
    ensures Shape(cfg, Step(cfg, s, a))
  {
    var o := Local(cfg, s, a);
    LocalPosts(cfg, s, a);
    assert o.proc.mem == s.net.procs[a.r].mem;
  }

  lemma LocalPosts<T>(cfg: Config<T>, s: State<T>, a: Action)
    requires Shape(cfg, s) && Enabled(cfg, s, a) && !a.DoDeliver?
    ensures forall t :: t in Local(cfg, s, a).posts ==> Legitimate(cfg, t)
  {
    Neighbours(cfg, a.r);
  }

  /** 1 if the call of rank `r` makes it have the data, otherwise 0. */
  ghost function Gains<T>(cfg: Config<T>, s: State<T>, a: Action): int
    requires Shape(cfg, s) && Enabled(cfg, s, a) && !a.DoDeliver?
  {
    B(Local(cfg, s, a).ctl.iteration > After(cfg, a.r)) - B(Has(cfg, s, a.r))
  }

  lemma HasChange<T>(cfg: Config<T>, s: State<T>, a: Action, x: nat)
    requires Shape(cfg, s) && Enabled(cfg, s, a) && !a.DoDeliver? && x < cfg.p
    ensures B(Has(cfg, Step(cfg, s, a), x)) == B(Has(cfg, s, x)) + if x == a.r then Gains(cfg, s, a) else 0
  {}

  /** The rank that posts a transfer when it comes to have the data. */
  ghost function Poster<T>(cfg: Config<T>, t: Msg): nat
    requires cfg.Valid() && Legitimate(cfg, t)
  {
    if t.slot.Dat? then Prev(cfg.p, t.dst) else Next(cfg.p, t.dst)
  }

  /** What a rank sends when it has the data. */
  ghost function Passes<T>(cfg: Config<T>, r: nat): Msg
    requires cfg.Valid() && r < cfg.p
  {
    if r == Prev(cfg.p, cfg.root) then FinalAck(cfg.p, r) else Forward(cfg.p, r)
  }

  lemma PassesIs<T>(cfg: Config<T>, r: nat, t: Msg)
    requires cfg.Valid() && r < cfg.p && Legitimate(cfg, t)
    ensures t == Passes(cfg, r) <==> r == Poster(cfg, t)
  {
    Neighbours(cfg, r);
    Neighbours(cfg, t.dst);
  }

  lemma LocalPasses<T>(cfg: Config<T>, s: State<T>, a: Action)
    requires Shape(cfg, s) && Enabled(cfg, s, a) && !a.DoDeliver?
    ensures 0 <= Gains(cfg, s, a) <= 1
    ensures Local(cfg, s, a).posts == if Gains(cfg, s, a) == 1 then [Passes(cfg, a.r)] else []
  {}

  /** A call posts and consumes what its change of iteration says. */
  lemma LocalPostsDue<T>(cfg: Config<T>, s: State<T>, a: Action, t: Msg)
    requires Shape(cfg, s) && Enabled(cfg, s, a) && !a.DoDeliver? && Legitimate(cfg, t)
    ensures multiset(Local(cfg, s, a).posts)[t] == if a.r == Poster(cfg, t) then Gains(cfg, s, a) else 0
  {
    LocalPasses(cfg, s, a);
    PassesIs(cfg, a.r, t);
  }

  lemma LocalConsumesDue<T>(cfg: Config<T>, s: State<T>, a: Action, t: Msg)
    requires Shape(cfg, s) && Enabled(cfg, s, a) && !a.DoDeliver? && Legitimate(cfg, t) && t.dst == a.r
    ensures var r, o := a.r, Local(cfg, s, a);
            B(t.slot in Consumed(s.net.procs[r], o))
            == if t.slot.Dat? then Gains(cfg, s, a) else B(o.ctl.done) - B(s.ctl[r].done)
  {
    Neighbours(cfg, a.r);
  }

  /** Balance is kept if the transfer is posted and consumed as its two ends come to have the data. */
  lemma GainBalance<T>(cfg: Config<T>, s: State<T>, s': State<T>, t: Msg, posted: int, consumed: int)
    requires Shape(cfg, s) && Shape(cfg, s') && Legitimate(cfg, t) && Balanced(cfg, s, t)
    requires InFlight(s'.net, t) == InFlight(s.net, t) + posted - consumed
    requires B(Has(cfg, s', Poster(cfg, t))) == B(Has(cfg, s, Poster(cfg, t))) + posted
    requires t.slot.Dat? ==> B(Has(cfg, s', t.dst)) == B(Has(cfg, s, t.dst)) + consumed
    requires t.slot.Ack? ==> B(s'.ctl[t.dst].done) == B(s.ctl[t.dst].done) + consumed
    ensures Balanced(cfg, s', t)
  {}

  lemma LocalBalance<T>(cfg: Config<T>, s: State<T>, a: Action, t: Msg)
    requires Inv(cfg, s) && Enabled(cfg, s, a) && !a.DoDeliver? && Shape(cfg, Step(cfg, s, a)) && Legitimate(cfg, t)
    ensures Balanced(cfg, Step(cfg, s, a), t)
  {
    assert Balanced(cfg, s, t);
    LocalFrame(cfg, s, a);
    LocalPostsDue(cfg, s, a, t);
    if t.dst == a.r { LocalConsumesDue(cfg, s, a, t); }
    HasChange(cfg, s, a, Poster(cfg, t));
    HasChange(cfg, s, a, t.dst);
    var o, proc := Local(cfg, s, a), s.net.procs[a.r];
    ActMovement(s.net, a.r, o.proc, o.posts, Consumed(proc, o), t);
    GainBalance(cfg, s, Step(cfg, s, a), t, multiset(o.posts)[t],
                if t.dst == a.r then B(t.slot in Consumed(proc, o)) else 0);
  }

  lemma LocalInv<T>(cfg: Config<T>, s: State<T>, a: Action)
    requires Inv(cfg, s) && Enabled(cfg, s, a) && !a.DoDeliver?
    ensures Inv(cfg, Step(cfg, s, a))
  {
    var s', o := Step(cfg, s, a), Local(cfg, s, a);
    LocalFrame(cfg, s, a);
    forall t ensures Balanced(cfg, s', t) {
      if Legitimate(cfg, t) { LocalBalance(cfg, s, a, t); }
    }
    forall t | t in s'.net.pending ensures Legitimate(cfg, t) {
      assert t in s.net.pending || t in o.posts;
    }
    forall r | 0 <= r < cfg.p ensures Holds(cfg, s', r) {
      assert Holds(cfg, s, r);
    }
  }

  /** A pending transfer is alone, and its sender has the data when it is a write. */
  lemma PendingAlone<T>(cfg: Config<T>, s: State<T>, t: Msg)
    requires Inv(cfg, s) && t in s.net.pending
    ensures Legitimate(cfg, t) && Deliverable(s.net, t)
    ensures s.net.pending[t] == 1 && t.slot !in s.net.procs[t.dst].notes
    ensures t.Write? ==> !Has(cfg, s, t.dst) && Has(cfg, s, t.src) && s.net.procs[t.src].mem[Buf] == cfg.input
  {
    assert Balanced(cfg, s, t);
    if t.Write? { assert Holds(cfg, s, t.src); }
  }

  lemma DeliverShape<T>(cfg: Config<T>, s: State<T>, t: Msg)
    requires Shape(cfg, s) && Deliverable(s.net, t) && Legitimate(cfg, t)
    ensures var s' := Step(cfg, s, DoDeliver(t));
            && Shape(cfg, s') && s'.ctl == s.ctl
            && (forall r :: 0 <= r < cfg.p && r != t.dst ==> s'.net.procs[r] == s.net.procs[r])
            && s'.net.procs[t.dst].notes == s.net.procs[t.dst].notes + {t.slot}
            && s'.net.procs[t.dst].mem[Buf]
               == if t.Write? then s.net.procs[t.src].mem[Buf] else s.net.procs[t.dst].mem[Buf]
  {}

  lemma DeliverBalance<T>(cfg: Config<T>, s: State<T>, s': State<T>, u: Msg)
    requires Shape(cfg, s) && Shape(cfg, s') && s'.ctl == s.ctl && Balanced(cfg, s, u)
    requires Legitimate(cfg, u) ==> InFlight(s'.net, u) == InFlight(s.net, u)
    ensures Balanced(cfg, s', u)
  {}

  lemma DeliverInv<T>(cfg: Config<T>, s: State<T>, t: Msg)
    requires Inv(cfg, s) && Deliverable(s.net, t)
    ensures Inv(cfg, Step(cfg, s, DoDeliver(t)))
  {
    var s' := Step(cfg, s, DoDeliver(t));
    PendingAlone(cfg, s, t);
    DeliverShape(cfg, s, t);
    forall u ensures Balanced(cfg, s', u) {
      assert Balanced(cfg, s, u);
      if Legitimate(cfg, u) { DeliverMovement(s.net, t, u); }
      DeliverBalance(cfg, s, s', u);
    }
    forall r | 0 <= r < cfg.p ensures Holds(cfg, s', r) {
      assert Holds(cfg, s, r);
    }
  }

  lemma TransitionInv<T>(cfg: Config<T>, s: State<T>, s': State<T>)
    requires Inv(cfg, s) && Transition(cfg, s, s')
    ensures Inv(cfg, s')
  {
    var a :| Enabled(cfg, s, a) && s' == Step(cfg, s, a);
    if a.DoDeliver? { DeliverInv(cfg, s, a.t); } else { LocalInv(cfg, s, a); }
  }

  lemma {:induction false} RunInv<T>(cfg: Config<T>, run: seq<State<T>>, n: nat)
    requires IsRun(cfg, run) && n < |run|
    ensures Inv(cfg, run[n])
  {
    if n == 0 {
      InitInv(cfg, run[0]);
    } else {
      RunInv(cfg, run, n - 1);
      assert Transition(cfg, run[n - 1], run[n - 1 + 1]);
      TransitionInv(cfg, run[n - 1], run[n]);
    }
  }

  lemma ReachableInv<T(!new)>(cfg: Config<T>, s: State<T>)
    requires Reachable(cfg, s)
    ensures Inv(cfg, s)
  {
    var run :| IsRun(cfg, run) && run[|run| - 1] == s;
    RunInv(cfg, run, |run| - 1);
  }

  // ----- the results -----

  /** Every rank that has finished holds the root's input. */
  lemma FinishedHoldsInput<T(!new)>(cfg: Config<T>, s: State<T>, r: nat)
    requires Reachable(cfg, s) && Shape(cfg, s) && r < cfg.p && s.ctl[r].done
    ensures s.net.procs[r].mem[Buf] == cfg.input
  {
    ReachableInv(cfg, s);
    assert Holds(cfg, s, r);
  }

  /** The data reaches the ranks in order of their distance from the root. */
  lemma {:induction false} ReachedInOrder<T>(cfg: Config<T>, s: State<T>, r: nat, y: nat)
    requires Inv(cfg, s) && r < cfg.p && y < cfg.p && Has(cfg, s, r) && After(cfg, y) <= After(cfg, r)
    ensures Has(cfg, s, y)
    decreases After(cfg, r)
  {
    if y != r && After(cfg, y) < After(cfg, r) {
      Neighbours(cfg, r);
      assert Balanced(cfg, s, Forward(cfg.p, Prev(cfg.p, r)));
      ReachedInOrder(cfg, s, Prev(cfg.p, r), y);
    }
  }

  lemma OrderOfArrival<T(!new)>(cfg: Config<T>, s: State<T>, r: nat, y: nat)
    requires Reachable(cfg, s) && Shape(cfg, s) && r < cfg.p && y < cfg.p
    requires Has(cfg, s, r) && After(cfg, y) <= After(cfg, r)
    ensures Has(cfg, s, y) && s.net.procs[y].mem[Buf] == cfg.input
  {
    ReachableInv(cfg, s);
    ReachedInOrder(cfg, s, r, y);
    assert Holds(cfg, s, y);
  }

  /** The rank before the last one finishes only when every rank holds the data. */
  lemma SecondLastFinishesLast<T(!new)>(cfg: Config<T>, s: State<T>, r: nat, y: nat)
    requires Reachable(cfg, s) && Shape(cfg, s) && r < cfg.p && y < cfg.p && IsSecondLast(cfg, r) && s.ctl[r].done
    ensures Has(cfg, s, y) && s.net.procs[y].mem[Buf] == cfg.input
  {
    ReachableInv(cfg, s);
    assert Balanced(cfg, s, Notify(r, Ack));
    Neighbours(cfg, r);
    OrderOfArrival(cfg, s, Next(cfg.p, r), y);
  }

  // ----- what the root can tell -----

  lemma Extend<T(!new)>(cfg: Config<T>, s: State<T>, s': State<T>)
    requires Reachable(cfg, s) && Transition(cfg, s, s')
    ensures Reachable(cfg, s')
  {
    var run :| IsRun(cfg, run) && run[|run| - 1] == s;
    var longer := run + [s'];
    forall i | 0 <= i < |longer| - 1 ensures Transition(cfg, longer[i], longer[i + 1]) {
      assert i < |run| - 1 ==> Transition(cfg, run[i], run[i + 1]);
    }
    assert IsRun(cfg, longer);
  }

  lemma Initial<T(!new)>(cfg: Config<T>) returns (s: State<T>)
    requires cfg.Valid()
    ensures Reachable(cfg, s) && Shape(cfg, s) && forall r :: 0 <= r < cfg.p ==> s.ctl[r] == Control(0, false)
  {
    s := State(Net(seq(cfg.p, r requires 0 <= r < cfg.p => Process(map[Buf := cfg.input], {})), multiset{}),
               seq(cfg.p, r requires 0 <= r < cfg.p => Control(0, false)));
    assert Init(cfg, s);
    assert IsRun(cfg, [s]) && [s][|[s]| - 1] == s;
  }

  /** A run in which only the root acts and nothing is delivered: it reaches iteration `i`. */
  lemma {:induction false} RootAlone<T(!new)>(cfg: Config<T>, i: nat) returns (s: State<T>)
    requires cfg.Valid() && i <= cfg.p
    ensures Reachable(cfg, s) && Shape(cfg, s) && s.ctl[cfg.root] == Control(i, false)
    ensures forall r :: 0 <= r < cfg.p && r != cfg.root ==> s.ctl[r] == Control(0, false)
  {
    if i == 0 {
      s := Initial(cfg);
    } else {
      var before := RootAlone(cfg, i - 1);
      var a := if i == 1 then DoStart(cfg.root) else DoTrigger(cfg.root);
      LocalFrame(cfg, before, a);
      s := Step(cfg, before, a);
      assert Enabled(cfg, before, a);
      Extend(cfg, before, s);
    }
  }

  /** When the root has finished, every rank has the data. */
  ghost predicate RootKnows<T>(cfg: Config<T>, s: State<T>)
    requires Shape(cfg, s)
  {
    s.ctl[cfg.root].done ==> forall r :: 0 <= r < cfg.p ==> Has(cfg, s, r)
  }

  /** With more than two ranks nobody acknowledges to the root: that the root has finished tells
      that the data has arrived exactly if there are two ranks. */
  lemma RootKnowsExactlyForTwo<T(!new)>(cfg: Config<T>)
    requires cfg.Valid()
    ensures (forall s :: Reachable(cfg, s) && Shape(cfg, s) ==> RootKnows(cfg, s)) <==> cfg.p == 2
  {
    if cfg.p == 2 {
      forall s | Reachable(cfg, s) && Shape(cfg, s) ensures RootKnows(cfg, s) {
        if s.ctl[cfg.root].done {
          forall r | 0 <= r < cfg.p ensures Has(cfg, s, r) {
            SecondLastFinishesLast(cfg, s, cfg.root, r);
          }
        }
      }
    } else {
      var before := RootAlone(cfg, cfg.p);
      LocalFrame(cfg, before, DoTrigger(cfg.root));
      var s := Step(cfg, before, DoTrigger(cfg.root));
      Extend(cfg, before, s);
      assert !Has(cfg, s, Next(cfg.p, cfg.root));
      assert !RootKnows(cfg, s);
    }
  }

  /** A buffer is never overwritten while it is being sent. */
  lemma ForwardedBufferIsStable<T(!new)>(cfg: Config<T>, s: State<T>, t: Msg, u: Msg)
    requires Reachable(cfg, s) && t in s.net.pending && u in s.net.pending && t.Write? && u.Write?
    ensures t.src != u.dst && (t.dst == u.dst ==> t == u) && s.net.pending[t] == 1
  {
    ReachableInv(cfg, s);
    PendingAlone(cfg, s, t);
    PendingAlone(cfg, s, u);
  }

  // ----- progress -----

  /** The rank that the data has to reach next. */
  lemma {:induction false} Frontier<T>(cfg: Config<T>, s: State<T>, r: nat) returns (y: nat)
    requires Inv(cfg, s) && r < cfg.p && !Has(cfg, s, r) && Has(cfg, s, cfg.root)
    ensures y < cfg.p && y != cfg.root && !Has(cfg, s, y) && Has(cfg, s, Prev(cfg.p, y))
    decreases After(cfg, r)
  {
    y := r;
    Neighbours(cfg, r);
    if !Has(cfg, s, Prev(cfg.p, r)) {
      y := Frontier(cfg, s, Prev(cfg.p, r));
    }
  }

  /** What the rank waits for, if anything, is there. */
  ghost predicate CanMove<T>(cfg: Config<T>, s: State<T>, r: nat)
    requires Shape(cfg, s) && r < cfg.p
  {
    var ctl, notes := s.ctl[r], s.net.procs[r].notes;
    && 0 < ctl.iteration && !ctl.done
    && if ctl.iteration == cfg.p then IsSecondLast(cfg, r) ==> Ack in notes
       else After(cfg, r) == ctl.iteration ==> Dat in notes
  }

  lemma MoveProgresses<T>(cfg: Config<T>, s: State<T>, r: nat)
    requires Shape(cfg, s) && r < cfg.p && CanMove(cfg, s, r)
    ensures Enabled(cfg, s, DoTrigger(r)) && Step(cfg, s, DoTrigger(r)) != s
  {
    assert Step(cfg, s, DoTrigger(r)).ctl[r] != s.ctl[r];
  }

  /** With nothing pending the rank that the data has to reach next has been served. */
  lemma FrontierMoves<T>(cfg: Config<T>, s: State<T>, y: nat)
    requires Inv(cfg, s) && s.net.pending == multiset{} && y < cfg.p && y != cfg.root && 0 < s.ctl[y].iteration
    requires !Has(cfg, s, y) && Has(cfg, s, Prev(cfg.p, y))
    ensures CanMove(cfg, s, y)
  {
    assert Balanced(cfg, s, Forward(cfg.p, Prev(cfg.p, y)));
  }

  /** The rank before the last one has its ack, or the last one has been served. */
  lemma SecondLastMoves<T>(cfg: Config<T>, s: State<T>, r: nat)
    requires Inv(cfg, s) && s.net.pending == multiset{} && r < cfg.p && IsSecondLast(cfg, r)
    requires s.ctl[r].iteration == cfg.p && !s.ctl[r].done && 0 < s.ctl[Next(cfg.p, r)].iteration
    ensures CanMove(cfg, s, r) || CanMove(cfg, s, Next(cfg.p, r))
  {
    Neighbours(cfg, r);
    assert Balanced(cfg, s, Notify(r, Ack));
    if !Has(cfg, s, Next(cfg.p, r)) { FrontierMoves(cfg, s, Next(cfg.p, r)); }
  }

  /** No deadlock: once all ranks have started, a delivery is possible, or a call of triggerProgress
      of some rank makes progress, or all have finished. */
  lemma NoDeadlock<T(!new)>(cfg: Config<T>, s: State<T>, r: nat)
    requires Reachable(cfg, s) && Shape(cfg, s) && r < cfg.p && !s.ctl[r].done
    requires forall y :: 0 <= y < cfg.p ==> 0 < s.ctl[y].iteration
    ensures (exists t :: Deliverable(s.net, t))
            || exists y :: Enabled(cfg, s, DoTrigger(y)) && Step(cfg, s, DoTrigger(y)) != s
  {
    ReachableInv(cfg, s);
    if s.net.pending != multiset{} {
      var t :| t in s.net.pending;
      PendingAlone(cfg, s, t);
    } else {
      var y := r;
      if !Has(cfg, s, r) {
        y := Frontier(cfg, s, r);
        FrontierMoves(cfg, s, y);
      } else if s.ctl[r].iteration == cfg.p && IsSecondLast(cfg, r) {
        SecondLastMoves(cfg, s, r);
        if !CanMove(cfg, s, r) { y := Next(cfg.p, r); }
      }
      MoveProgresses(cfg, s, y);
    }
  }

  /** Every productive call moves its rank exactly one iteration on, or finishes it: p - 1 productive
      calls after the start, and the last one. */
  lemma CallsClimb<T>(cfg: Config<T>, s: State<T>, a: Action)
    requires Shape(cfg, s) && Enabled(cfg, s, a) && !a.DoDeliver? && Step(cfg, s, a) != s
    ensures var c, c' := s.ctl[a.r], Local(cfg, s, a).ctl;
            c'.iteration + B(c'.done) == c.iteration + B(c.done) + 1 <= cfg.p + 1
  {
    assert s.ctl[a.r := s.ctl[a.r]] == s.ctl;
    assert s.net.procs[a.r := s.net.procs[a.r]] == s.net.procs;
    assert s.net.pending + multiset([]) == s.net.pending;
  }
}
