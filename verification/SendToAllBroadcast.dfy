/** The send-to-all broadcast: the root writes to every other rank and counts their acks down.  The
    machine runs one execution of all ranks; the root polls one ack at a time, in any interleaving. */
module SendToAllBroadcast {
  import opened RingIndex
  import opened Transport

  /** A rank has one buffer; all source endpoints of the root share its memory. */
  datatype Cell = Buf

  /** `Dat`: arrival at a rank; `Ack(i)`: ack at the root's source endpoint i. */
  datatype Slot = Dat | Ack(i: nat)

  type Msg = Transfer<Cell, Slot>
  type Proc<T> = Process<Cell, Slot, seq<T>>

  // ----- the destinations -----

  /** The ranks below `n` other than the root, in order. */
  function NonRootRanks(n: nat, root: nat): seq<nat> {
    if n == 0 then [] else if n - 1 == root then NonRootRanks(n - 1, root) else NonRootRanks(n - 1, root) + [n - 1]
  }

  /** The destinations of the source endpoints: the last non-root rank first. */
  function Destinations(p: nat, root: nat): seq<nat>
    requires 2 <= p && root < p
  {
    var ranks := NonRootRanks(p, root);
    NonRootLength(p, root);
    [ranks[|ranks| - 1]] + ranks[..|ranks| - 1]
  }

  lemma {:induction false} NonRootLength(n: nat, root: nat)
    ensures |NonRootRanks(n, root)| == if root < n then n - 1 else n
  {
    if n == 0 {
    } else {
      NonRootLength(n - 1, root);
    }
  }

  lemma {:induction false} NonRootAt(n: nat, root: nat, i: nat)
    requires i < |NonRootRanks(n, root)|
    ensures NonRootRanks(n, root)[i] == if i < root then i else i + 1
  {
    NonRootLength(n, root);
    if n == 0 {
    } else {
      NonRootLength(n - 1, root);
      if i < |NonRootRanks(n - 1, root)| { NonRootAt(n - 1, root, i); }
    }
  }

  /** The source endpoint that sends to rank `r`. */
  function EndpointOf(p: nat, root: nat, r: nat): nat
    requires 2 <= p && root < p && r < p && r != root
  {
    var i := if r < root then r else r - 1;
    if i == p - 2 then 0 else i + 1
  }

  /** The endpoints and the other ranks are in bijection. */
  lemma DestinationsBijective(p: nat, root: nat, i: nat, r: nat)
    requires 2 <= p && root < p
    ensures |Destinations(p, root)| == p - 1
    ensures i < p - 1 ==>
              var d := Destinations(p, root)[i];
              d < p && d != root && EndpointOf(p, root, d) == i
    ensures r < p && r != root ==> EndpointOf(p, root, r) < p - 1 && Destinations(p, root)[EndpointOf(p, root, r)] == r
  {
    NonRootLength(p, root);
    var m := |NonRootRanks(p, root)|;
    NonRootAt(p, root, m - 1);
    if i < p - 1 && 0 < i { NonRootAt(p, root, i - 1); }
    if r < p && r != root { NonRootAt(p, root, if r < root then r else r - 1); }
  }

  // ----- one rank -----

  /** `inProgress` and the position `poll` in the polling loop matter at the root; `acked` records
      which acks it has consumed. */
  datatype Control = Control(started: bool, done: bool, inProgress: nat, poll: nat, acked: set<nat>)

  datatype Config<!T> = Config(p: nat, root: nat, input: seq<T>) {
    ghost predicate Valid() {
      2 <= p < WORD && root < p
    }

    /** A transfer of size zero is a bare notification. */
    function Send(i: nat): Msg
      requires 2 <= p && root < p && i < p - 1
    {
      DestinationsBijective(p, root, i, 0);
      var d := Destinations(p, root)[i];
      if input == [] then Notify(d, Dat) else Write(root, Buf, d, Buf, Dat)
    }

    function SendAck(r: nat): Msg
      requires 2 <= p && root < p && r < p && r != root
    {
      Notify(root, Ack(EndpointOf(p, root, r)))
    }

    /** The transfers of the first `n` endpoints. */
    function Sends(n: nat): seq<Msg>
      requires 2 <= p && root < p && n <= p - 1
    {
      if n == 0 then [] else Sends(n - 1) + [Send(n - 1)]
    }
  }

  ghost predicate ControlOk<T>(cfg: Config<T>, ctl: Control)
    requires cfg.Valid()
  {
    && ctl.inProgress < WORD && ctl.poll <= cfg.p - 1 && (forall i :: i in ctl.acked ==> i < cfg.p - 1)
    && (!ctl.started ==> !ctl.done && ctl.acked == {} && ctl.poll == 0)
  }

  datatype Outcome<T> = Outcome(ctl: Control, proc: Proc<T>, posts: seq<Msg>)

  ghost function Start<T>(cfg: Config<T>, r: nat, ctl: Control, proc: Proc<T>): Outcome<T>
    requires cfg.Valid()
  {
    if r == cfg.root then Outcome(Control(true, false, cfg.p - 1, 0, {}), proc, cfg.Sends(cfg.p - 1))
    else Outcome(ctl.(started := true), proc, [])
  }

  /** One pass of the root's polling loop, or the test after it; the only poll of another rank. */
  ghost function Poll<T>(cfg: Config<T>, r: nat, ctl: Control, proc: Proc<T>): Outcome<T>
    requires cfg.Valid() && ControlOk(cfg, ctl) && r < cfg.p
  {
    if r == cfg.root then
      if ctl.poll == cfg.p - 1 then Outcome(ctl.(poll := 0, done := ctl.inProgress == 0), proc, [])
      else if Ack(ctl.poll) !in proc.notes then Outcome(ctl.(poll := ctl.poll + 1), proc, [])
      else
        Outcome(ctl.(inProgress := if ctl.inProgress == 0 then WORD - 1 else ctl.inProgress - 1, poll := ctl.poll + 1,
                     acked := ctl.acked + {ctl.poll}),
                proc.(notes := proc.notes - {Ack(ctl.poll)}), [])
    else if Dat !in proc.notes then Outcome(ctl, proc, [])
    else Outcome(ctl.(done := true), proc.(notes := proc.notes - {Dat}), [cfg.SendAck(r)])
  }

  // ----- all ranks -----

  datatype State<T> = State(net: Net<Cell, Slot, seq<T>>, ctl: seq<Control>)

  datatype Action = DoStart(r: nat) | DoPoll(r: nat) | DoDeliver(t: Msg)

  ghost predicate Shape<T>(cfg: Config<T>, s: State<T>) {
    && cfg.Valid()
    && |s.net.procs| == |s.ctl| == cfg.p
    && forall r :: 0 <= r < cfg.p ==> Buf in s.net.procs[r].mem && ControlOk(cfg, s.ctl[r])
  }

  ghost predicate Enabled<T>(cfg: Config<T>, s: State<T>, a: Action)
    requires Shape(cfg, s)
  {
    match a
    case DoStart(r) => r < cfg.p && !s.ctl[r].started
    case DoPoll(r) => r < cfg.p && s.ctl[r].started && !s.ctl[r].done
    case DoDeliver(t) => Deliverable(s.net, t)
  }

  ghost function Local<T>(cfg: Config<T>, s: State<T>, a: Action): Outcome<T>
    requires Shape(cfg, s) && Enabled(cfg, s, a) && !a.DoDeliver?
  {
    if a.DoStart? then Start(cfg, a.r, s.ctl[a.r], s.net.procs[a.r]) else Poll(cfg, a.r, s.ctl[a.r], s.net.procs[a.r])
  }

  ghost function Step<T>(cfg: Config<T>, s: State<T>, a: Action): State<T>
    requires Shape(cfg, s) && Enabled(cfg, s, a)
  {
    if a.DoDeliver? then s.(net := Deliver(s.net, a.t))
    else
      var o := Local(cfg, s, a);
      State(Act(s.net, a.r, o.proc, o.posts), s.ctl[a.r := o.ctl])
  }

  /** The root's input copied in, nothing started; the other buffers hold anything of that size. */
  ghost predicate Init<T>(cfg: Config<T>, s: State<T>) {
    && Shape(cfg, s)
    && s.net.pending == multiset{} && s.net.procs[cfg.root].mem[Buf] == cfg.input
    && forall r :: 0 <= r < cfg.p ==>
                     && s.net.procs[r].notes == {} && !s.ctl[r].started && |s.net.procs[r].mem[Buf]| == |cfg.input|
  }

  ghost predicate Transition<T>(cfg: Config<T>, s: State<T>, s': State<T>) {
    Shape(cfg, s) && exists a :: Enabled(cfg, s, a) && s' == Step(cfg, s, a)
  }

  ghost predicate IsRun<T>(cfg: Config<T>, run: seq<State<T>>) {
    && 0 < |run|
    && Init(cfg, run[0])
    && forall i :: 0 <= i < |run| - 1 ==> Transition(cfg, run[i], run[i + 1])
  }

  ghost predicate Reachable<T(!new)>(cfg: Config<T>, s: State<T>) {
    exists run :: IsRun(cfg, run) && run[|run| - 1] == s
  }

  // ----- the invariant -----

  function B(b: bool): nat {
    if b then 1 else 0
  }

  ghost predicate Legitimate<T>(cfg: Config<T>, t: Msg)
    requires cfg.Valid()
  {
    if t.slot.Dat? then t.dst < cfg.p && t.dst != cfg.root && t == cfg.Send(Endpoint(cfg, t.dst))
    else t.slot.i < cfg.p - 1 && t == Notify(cfg.root, t.slot)
  }

  ghost function Endpoint<T>(cfg: Config<T>, r: nat): (i: nat)
    requires cfg.Valid() && r < cfg.p && r != cfg.root
    ensures i < cfg.p - 1
  {
    DestinationsBijective(cfg.p, cfg.root, 0, r);
    EndpointOf(cfg.p, cfg.root, r)
  }

  ghost function Destination<T>(cfg: Config<T>, i: nat): (r: nat)
    requires cfg.Valid() && i < cfg.p - 1
    ensures r < cfg.p && r != cfg.root && Endpoint(cfg, r) == i
  {
    DestinationsBijective(cfg.p, cfg.root, i, 0);
    Destinations(cfg.p, cfg.root)[i]
  }

  ghost predicate Balanced<T>(cfg: Config<T>, s: State<T>, t: Msg)
    requires Shape(cfg, s)
  {
    Legitimate(cfg, t) ==>
      InFlight(s.net, t) == if t.slot.Dat? then B(s.ctl[cfg.root].started) - B(s.ctl[t.dst].done)
                            else B(s.ctl[Destination(cfg, t.slot.i)].done) - B(t.slot.i in s.ctl[cfg.root].acked)
  }

  ghost predicate Holds<T>(cfg: Config<T>, s: State<T>, r: nat)
    requires Shape(cfg, s) && r < cfg.p
  {
    && |s.net.procs[r].mem[Buf]| == |cfg.input|
    && (r == cfg.root || Dat in s.net.procs[r].notes || s.ctl[r].done ==> s.net.procs[r].mem[Buf] == cfg.input)
  }

  /** The counter is the number of acks still to be consumed. */
  ghost predicate CounterOk<T>(cfg: Config<T>, ctl: Control)
    requires cfg.Valid()
  {
    && (ctl.started ==> ctl.inProgress + |ctl.acked| == cfg.p - 1)
    && (ctl.done ==> ctl.inProgress == 0)
  }

  ghost predicate Inv<T>(cfg: Config<T>, s: State<T>) {
    && Shape(cfg, s)
    && CounterOk(cfg, s.ctl[cfg.root])
    && (forall t :: t in s.net.pending ==> Legitimate(cfg, t))
    && (forall t {:trigger Balanced(cfg, s, t)} :: Balanced(cfg, s, t))
    && (forall r :: 0 <= r < cfg.p ==> Holds(cfg, s, r))
  }

  lemma InitInv<T>(cfg: Config<T>, s: State<T>)
    requires Init(cfg, s)
    ensures Inv(cfg, s)
  {
    forall t ensures Balanced(cfg, s, t) {}
    forall r | 0 <= r < cfg.p ensures Holds(cfg, s, r) {}
  }

  lemma SendLegitimate<T>(cfg: Config<T>, i: nat)
    requires cfg.Valid() && i < cfg.p - 1
    ensures Legitimate(cfg, cfg.Send(i)) && cfg.Send(i).slot.Dat? && Endpoint(cfg, cfg.Send(i).dst) == i
  {
    DestinationsBijective(cfg.p, cfg.root, i, Destination(cfg, i));
  }

  lemma {:induction false} SendsLegitimate<T>(cfg: Config<T>, n: nat)
    requires cfg.Valid() && n <= cfg.p - 1
    ensures forall u :: u in cfg.Sends(n) ==> Legitimate(cfg, u)
  {
    if n == 0 {
    } else {
      SendsLegitimate(cfg, n - 1);
      SendLegitimate(cfg, n - 1);
    }
  }

  /** The root's start posts exactly one transfer to every other rank. */
  /** Each endpoint sends once. */
  lemma SendsCount<T>(cfg: Config<T>, n: nat, t: Msg)
    requires cfg.Valid() && n <= cfg.p - 1 && Legitimate(cfg, t)
    ensures multiset(cfg.Sends(n))[t] == B(t.slot.Dat? && Endpoint(cfg, t.dst) < n)
  {
    var k := if t.slot.Dat? then Endpoint(cfg, t.dst) else n;
    forall i | 0 <= i < n ensures i < |cfg.Sends(n)| && (cfg.Sends(n)[i] == t <==> i == k) {
      SendsAt(cfg, n, i);
      SendIs(cfg, i, t);
    }
    SendsLength(cfg, n);
    CountOnce(cfg.Sends(n), t, k);
  }

  lemma {:induction false} SendsLength<T>(cfg: Config<T>, n: nat)
    requires cfg.Valid() && n <= cfg.p - 1
    ensures |cfg.Sends(n)| == n
  {
    if 0 < n { SendsLength(cfg, n - 1); }
  }

  lemma {:induction false} SendsAt<T>(cfg: Config<T>, n: nat, i: nat)
    requires cfg.Valid() && i < n <= cfg.p - 1
    ensures i < |cfg.Sends(n)| && cfg.Sends(n)[i] == cfg.Send(i)
  {
    SendsLength(cfg, n - 1);
    if i < n - 1 { SendsAt(cfg, n - 1, i); }
  }

  /** What stands at one place of a sequence stands in it once. */
  lemma {:induction false} CountOnce(posts: seq<Msg>, t: Msg, k: nat)
    requires forall i :: 0 <= i < |posts| ==> (posts[i] == t <==> i == k)
    ensures multiset(posts)[t] == B(k < |posts|)
  {
    if posts != [] {
      var n := |posts| - 1;
      assert posts == posts[..n] + [posts[n]];
      OnePost(posts[..n], posts[n], t);
      CountOnce(posts[..n], t, k);
    }
  }

  lemma OnePost(posts: seq<Msg>, u: Msg, t: Msg)
    ensures multiset(posts + [u])[t] == multiset(posts)[t] + B(t == u)
  {}

  lemma SendIs<T>(cfg: Config<T>, i: nat, t: Msg)
    requires cfg.Valid() && i < cfg.p - 1 && Legitimate(cfg, t)
    ensures t == cfg.Send(i) <==> t.slot.Dat? && Endpoint(cfg, t.dst) == i
  {
    SendLegitimate(cfg, i);
  }

  ghost function Consumed<T>(proc: Proc<T>, o: Outcome<T>): set<Slot> {
    proc.notes - o.proc.notes
  }

  lemma StartShape<T>(cfg: Config<T>, s: State<T>, r: nat)
    requires Inv(cfg, s) && Enabled(cfg, s, DoStart(r))
    ensures Shape(cfg, Step(cfg, s, DoStart(r))) && CounterOk(cfg, Step(cfg, s, DoStart(r)).ctl[cfg.root])
  {}

  lemma AllSends<T>(cfg: Config<T>, t: Msg)
    requires cfg.Valid() && Legitimate(cfg, t)
    ensures multiset(cfg.Sends(cfg.p - 1))[t] == B(t.slot.Dat?)
  {
    SendsCount(cfg, cfg.p - 1, t);
  }

  lemma StartOutcome<T>(cfg: Config<T>, r: nat, ctl: Control, proc: Proc<T>)
    requires cfg.Valid() && r < cfg.p
    ensures Start(cfg, r, ctl, proc).posts == if r == cfg.root then cfg.Sends(cfg.p - 1) else []
    ensures Start(cfg, r, ctl, proc).proc == proc
  {}

  /** What a start posts, as the transfers that are due. */
  lemma StartPosts<T>(cfg: Config<T>, r: nat, ctl: Control, proc: Proc<T>, t: Msg)
    requires cfg.Valid() && r < cfg.p && Legitimate(cfg, t)
    ensures multiset(Start(cfg, r, ctl, proc).posts)[t] == B(r == cfg.root && t.slot.Dat?)
    ensures Start(cfg, r, ctl, proc).proc == proc
  {
    StartOutcome(cfg, r, ctl, proc);
    AllSends(cfg, t);
  }

  lemma StartBalance<T>(cfg: Config<T>, s: State<T>, r: nat, t: Msg)
    requires Inv(cfg, s) && Enabled(cfg, s, DoStart(r)) && Shape(cfg, Step(cfg, s, DoStart(r))) && Legitimate(cfg, t)
    ensures Balanced(cfg, Step(cfg, s, DoStart(r)), t)
  {
    var o := Local(cfg, s, DoStart(r));
    assert Balanced(cfg, s, t);
    StartPosts(cfg, r, s.ctl[r], s.net.procs[r], t);
    ActMovement(s.net, r, o.proc, o.posts, {}, t);
  }

  lemma StartInv<T>(cfg: Config<T>, s: State<T>, r: nat)
    requires Inv(cfg, s) && Enabled(cfg, s, DoStart(r))
    ensures Inv(cfg, Step(cfg, s, DoStart(r)))
  {
    var s', o := Step(cfg, s, DoStart(r)), Local(cfg, s, DoStart(r));
    StartShape(cfg, s, r);
    forall t ensures Balanced(cfg, s', t) {
      if Legitimate(cfg, t) { StartBalance(cfg, s, r, t); }
    }
    forall t | t in s'.net.pending ensures Legitimate(cfg, t) {
      SendsLegitimate(cfg, cfg.p - 1);
      assert t in s.net.pending || t in o.posts;
    }
    forall x | 0 <= x < cfg.p ensures Holds(cfg, s', x) {
      assert Holds(cfg, s, x);
    }
  }

  /** The root never consumes an ack twice, so the counter never goes below zero. */
  lemma AckIsNew<T>(cfg: Config<T>, s: State<T>)
    requires Inv(cfg, s) && Enabled(cfg, s, DoPoll(cfg.root)) && s.ctl[cfg.root].poll < cfg.p - 1
    requires Ack(s.ctl[cfg.root].poll) in s.net.procs[cfg.root].notes
    ensures s.ctl[cfg.root].poll !in s.ctl[cfg.root].acked && 0 < s.ctl[cfg.root].inProgress
  {
    var i := s.ctl[cfg.root].poll;
    assert Balanced(cfg, s, Notify(cfg.root, Ack(i)));
    Subset(s.ctl[cfg.root].acked + {i}, cfg.p - 1);
  }

  lemma {:induction false} Subset(a: set<nat>, n: nat)
    requires forall i :: i in a ==> i < n
    ensures |a| <= n
    ensures |a| == n ==> forall i: nat :: i < n ==> i in a
  {
    if 0 < n {
      Subset(a - {n - 1}, n - 1);
    } else {
      assert a == {};
    }
  }

  lemma PollEffect<T>(cfg: Config<T>, s: State<T>, r: nat, t: Msg)
    requires Inv(cfg, s) && Enabled(cfg, s, DoPoll(r)) && Legitimate(cfg, t)
    ensures var o, ctl := Local(cfg, s, DoPoll(r)), s.ctl[r];
            && multiset(o.posts)[t]
               == (if t.slot.Ack? && r == Destination(cfg, t.slot.i) then B(o.ctl.done) - B(ctl.done) else 0)
            && (t.dst == r ==>
                  B(t.slot in Consumed(s.net.procs[r], o))
                  == if t.slot.Dat? then B(o.ctl.done) - B(ctl.done)
                     else B(t.slot.i in o.ctl.acked) - B(t.slot.i in ctl.acked))
  {
    if r == cfg.root {
      if s.ctl[r].poll < cfg.p - 1 && Ack(s.ctl[r].poll) in s.net.procs[r].notes { AckIsNew(cfg, s); }
    } else {
      DestinationsBijective(cfg.p, cfg.root, 0, r);
    }
  }

  lemma PollShape<T>(cfg: Config<T>, s: State<T>, r: nat)
    requires Inv(cfg, s) && Enabled(cfg, s, DoPoll(r))
    ensures Shape(cfg, Step(cfg, s, DoPoll(r))) && CounterOk(cfg, Step(cfg, s, DoPoll(r)).ctl[cfg.root])
    ensures var o := Local(cfg, s, DoPoll(r));
            && o.proc.mem == s.net.procs[r].mem && o.proc.notes == s.net.procs[r].notes - Consumed(s.net.procs[r], o)
            && (forall t :: t in o.posts ==> Legitimate(cfg, t))
  {
    if r == cfg.root {
      if s.ctl[r].poll < cfg.p - 1 && Ack(s.ctl[r].poll) in s.net.procs[r].notes { AckIsNew(cfg, s); }
    } else {
      DestinationsBijective(cfg.p, cfg.root, 0, r);
    }
  }

  lemma PollBalance<T>(cfg: Config<T>, s: State<T>, r: nat, t: Msg)
    requires Inv(cfg, s) && Enabled(cfg, s, DoPoll(r)) && Shape(cfg, Step(cfg, s, DoPoll(r))) && Legitimate(cfg, t)
    ensures Balanced(cfg, Step(cfg, s, DoPoll(r)), t)
  {
    assert Balanced(cfg, s, t);
    PollShape(cfg, s, r);
    PollEffect(cfg, s, r, t);
    var o, proc := Local(cfg, s, DoPoll(r)), s.net.procs[r];
    ActMovement(s.net, r, o.proc, o.posts, Consumed(proc, o), t);
  }

  lemma PollInv<T>(cfg: Config<T>, s: State<T>, r: nat)
    requires Inv(cfg, s) && Enabled(cfg, s, DoPoll(r))
    ensures Inv(cfg, Step(cfg, s, DoPoll(r)))
  {
    var s', o := Step(cfg, s, DoPoll(r)), Local(cfg, s, DoPoll(r));
    PollShape(cfg, s, r);
    forall t ensures Balanced(cfg, s', t) {
      if Legitimate(cfg, t) { PollBalance(cfg, s, r, t); }
    }
    forall t | t in s'.net.pending ensures Legitimate(cfg, t) {
      assert t in s.net.pending || t in o.posts;
    }
    forall x | 0 <= x < cfg.p ensures Holds(cfg, s', x) {
      assert Holds(cfg, s, x);
    }
  }

  lemma PendingAlone<T>(cfg: Config<T>, s: State<T>, t: Msg)
    requires Inv(cfg, s) && t in s.net.pending
    ensures Legitimate(cfg, t) && Deliverable(s.net, t)
    ensures s.net.pending[t] == 1 && t.slot !in s.net.procs[t.dst].notes
    ensures t.slot.Dat? ==> !s.ctl[t.dst].done
  {
    assert Balanced(cfg, s, t);
  }

  lemma DeliverInv<T>(cfg: Config<T>, s: State<T>, t: Msg)
    requires Inv(cfg, s) && Deliverable(s.net, t)
    ensures Inv(cfg, Step(cfg, s, DoDeliver(t)))
  {
    var s' := Step(cfg, s, DoDeliver(t));
    PendingAlone(cfg, s, t);
    assert Holds(cfg, s, cfg.root);
    forall u ensures Balanced(cfg, s', u) {
      assert Balanced(cfg, s, u);
      if Legitimate(cfg, u) { DeliverMovement(s.net, t, u); }
    }
    forall x | 0 <= x < cfg.p ensures Holds(cfg, s', x) {
      assert Holds(cfg, s, x);
    }
  }

  lemma TransitionInv<T>(cfg: Config<T>, s: State<T>, s': State<T>)
    requires Inv(cfg, s) && Transition(cfg, s, s')
    ensures Inv(cfg, s')
  {
    var a :| Enabled(cfg, s, a) && s' == Step(cfg, s, a);
    match a {
      case DoStart(r) => StartInv(cfg, s, r);
      case DoPoll(r) => PollInv(cfg, s, r);
      case DoDeliver(t) => DeliverInv(cfg, s, t);
    }
  }

  lemma {:induction false} RunInv<T>(cfg: Config<T>, run: seq<State<T>>, n: nat)
    requires IsRun(cfg, run) && n < |run|
    ensures Inv(cfg, run[n])
  {
    if n == 0 {
      InitInv(cfg, run[0]);
    } else {
      RunInv(cfg, run, n - 1);
      assert Transition(cfg, run[n - 1], run[n - 1 + 1]);
      TransitionInv(cfg, run[n - 1], run[n]);
    }
  }

  lemma ReachableInv<T(!new)>(cfg: Config<T>, s: State<T>)
    requires Reachable(cfg, s)
    ensures Inv(cfg, s)
  {
    var run :| IsRun(cfg, run) && run[|run| - 1] == s;
    RunInv(cfg, run, |run| - 1);
  }

  // ----- the results -----

  /** While the root runs, its counter is the number of endpoints whose ack it has not consumed; and
      a poll that finds an ack never takes the counter below zero. */
  lemma CounterCountsMissingAcks<T(!new)>(cfg: Config<T>, s: State<T>)
    requires Reachable(cfg, s) && Shape(cfg, s) && s.ctl[cfg.root].started
    ensures s.ctl[cfg.root].inProgress == cfg.p - 1 - |s.ctl[cfg.root].acked|
    ensures (&& !s.ctl[cfg.root].done && s.ctl[cfg.root].poll < cfg.p - 1
             && Ack(s.ctl[cfg.root].poll) in s.net.procs[cfg.root].notes) ==>
              0 < s.ctl[cfg.root].inProgress
  {
    ReachableInv(cfg, s);
    if !s.ctl[cfg.root].done && s.ctl[cfg.root].poll < cfg.p - 1
       && Ack(s.ctl[cfg.root].poll) in s.net.procs[cfg.root].notes {
      AckIsNew(cfg, s);
    }
  }

  /** When the root has finished, every other rank has received the root's input. */
  lemma RootFinishedMeansAllReceived<T(!new)>(cfg: Config<T>, s: State<T>, r: nat)
    requires Reachable(cfg, s) && Shape(cfg, s) && r < cfg.p && r != cfg.root && s.ctl[cfg.root].done
    ensures s.ctl[r].done && s.net.procs[r].mem[Buf] == cfg.input
  {
    ReachableInv(cfg, s);
    var i := Endpoint(cfg, r);
    Subset(s.ctl[cfg.root].acked, cfg.p - 1);
    DestinationsBijective(cfg.p, cfg.root, 0, r);
    assert Balanced(cfg, s, Notify(cfg.root, Ack(i)));
    assert Holds(cfg, s, r);
  }

  /** A rank that has finished holds the root's input. */
  lemma FinishedHoldsInput<T(!new)>(cfg: Config<T>, s: State<T>, r: nat)
    requires Reachable(cfg, s) && Shape(cfg, s) && r < cfg.p && s.ctl[r].done
    ensures s.net.procs[r].mem[Buf] == cfg.input
  {
    ReachableInv(cfg, s);
    assert Holds(cfg, s, r);
  }

  // ----- progress -----

  /** `n` polls of the root in a row, or fewer if it finishes. */
  ghost function RootPolls<T>(cfg: Config<T>, s: State<T>, n: nat): (s': State<T>)
    requires Inv(cfg, s) && s.ctl[cfg.root].started
    ensures Inv(cfg, s') && s'.ctl[cfg.root].started
    decreases n
  {
    if n == 0 || s.ctl[cfg.root].done then s
    else
      PollInv(cfg, s, cfg.root);
      RootPolls(cfg, Step(cfg, s, DoPoll(cfg.root)), n - 1)
  }

  /** The root has finished, or has consumed acks it had not consumed before. */
  ghost predicate RootAdvances<T>(cfg: Config<T>, s: State<T>, s': State<T>)
    requires Shape(cfg, s) && Shape(cfg, s')
  {
    s'.ctl[cfg.root].done || s.ctl[cfg.root].acked < s'.ctl[cfg.root].acked
  }

  /** The root's poll at position `q` would take it on: an ack is there, or it is the final test and
      all acks are in. */
  ghost predicate Awaited<T>(cfg: Config<T>, s: State<T>, q: nat)
    requires Shape(cfg, s)
  {
    var ctl := s.ctl[cfg.root];
    if q < cfg.p - 1 then q !in ctl.acked && Ack(q) in s.net.procs[cfg.root].notes
    else q == cfg.p - 1 && ctl.inProgress == 0
  }

  /** Polls from position `poll` on until position `q` has been polled. */
  function PollsUntil(p: nat, poll: nat, q: nat): nat
    requires poll < p && q < p
  {
    if poll <= q then q - poll + 1 else p - poll + q + 1
  }

  /** One poll of the root: it takes the root on, or moves its position one on and leaves the rest. */
  lemma RootPoll<T>(cfg: Config<T>, s: State<T>, q: nat)
    requires Inv(cfg, s) && Enabled(cfg, s, DoPoll(cfg.root)) && q < cfg.p && Awaited(cfg, s, q)
    ensures var s', ctl := Step(cfg, s, DoPoll(cfg.root)), s.ctl[cfg.root];
            && Shape(cfg, s')
            && (RootAdvances(cfg, s, s')
                || (&& Awaited(cfg, s', q) && s'.ctl[cfg.root].acked == ctl.acked && !s'.ctl[cfg.root].done
                    && PollsUntil(cfg.p, s'.ctl[cfg.root].poll, q) + 1 == PollsUntil(cfg.p, ctl.poll, q)))
  {
    PollShape(cfg, s, cfg.root);
    var i := s.ctl[cfg.root].poll;
    if i < cfg.p - 1 && Ack(i) in s.net.procs[cfg.root].notes {
      AckIsNew(cfg, s);
      assert i in Step(cfg, s, DoPoll(cfg.root)).ctl[cfg.root].acked;
    }
  }

  lemma {:induction false} AckedStay<T>(cfg: Config<T>, s: State<T>, n: nat)
    requires Inv(cfg, s) && s.ctl[cfg.root].started
    ensures s.ctl[cfg.root].acked <= RootPolls(cfg, s, n).ctl[cfg.root].acked
    ensures s.ctl[cfg.root].done ==> RootPolls(cfg, s, n).ctl[cfg.root].done
    decreases n
  {
    if n == 0 || s.ctl[cfg.root].done {
    } else {
      PollInv(cfg, s, cfg.root);
      AckedStay(cfg, Step(cfg, s, DoPoll(cfg.root)), n - 1);
    }
  }

  lemma FirstPoll<T>(cfg: Config<T>, s: State<T>, n: nat) returns (s': State<T>)
    requires Inv(cfg, s) && s.ctl[cfg.root].started && !s.ctl[cfg.root].done && 0 < n
    ensures s' == Step(cfg, s, DoPoll(cfg.root)) && Inv(cfg, s') && s'.ctl[cfg.root].started
    ensures RootPolls(cfg, s, n) == RootPolls(cfg, s', n - 1)
  {
    PollInv(cfg, s, cfg.root);
    s' := Step(cfg, s, DoPoll(cfg.root));
  }

  lemma {:induction false} LastRootPoll<T>(cfg: Config<T>, s: State<T>, n: nat)
    requires Inv(cfg, s) && s.ctl[cfg.root].started && 0 < n && !RootPolls(cfg, s, n - 1).ctl[cfg.root].done
    ensures Enabled(cfg, RootPolls(cfg, s, n - 1), DoPoll(cfg.root))
    ensures RootPolls(cfg, s, n) == Step(cfg, RootPolls(cfg, s, n - 1), DoPoll(cfg.root))
    decreases n
  {
    if 1 < n {
      assert !s.ctl[cfg.root].done;
      var s' := FirstPoll(cfg, s, n);
      var s'' := FirstPoll(cfg, s, n - 1);
      LastRootPoll(cfg, s', n - 1);
    }
  }

  lemma PollOnce<T>(cfg: Config<T>, s: State<T>, q: nat, n: nat) returns (s': State<T>)
    requires Inv(cfg, s) && s.ctl[cfg.root].started && !s.ctl[cfg.root].done && q < cfg.p && Awaited(cfg, s, q)
    requires 0 < n
    ensures Inv(cfg, s') && s'.ctl[cfg.root].started && RootPolls(cfg, s, n) == RootPolls(cfg, s', n - 1)
    ensures || RootAdvances(cfg, s, s')
            || (&& Awaited(cfg, s', q) && s'.ctl[cfg.root].acked == s.ctl[cfg.root].acked && !s'.ctl[cfg.root].done
                && PollsUntil(cfg.p, s'.ctl[cfg.root].poll, q) + 1 == PollsUntil(cfg.p, s.ctl[cfg.root].poll, q))
  {
    s' := FirstPoll(cfg, s, n);
    RootPoll(cfg, s, q);
  }

  lemma {:induction false} PollsFind<T>(cfg: Config<T>, s: State<T>, q: nat, n: nat)
    requires Inv(cfg, s) && s.ctl[cfg.root].started && !s.ctl[cfg.root].done && q < cfg.p && Awaited(cfg, s, q)
    requires PollsUntil(cfg.p, s.ctl[cfg.root].poll, q) <= n
    ensures RootAdvances(cfg, s, RootPolls(cfg, s, n))
    decreases n
  {
    var s' := PollOnce(cfg, s, q, n);
    var last := RootPolls(cfg, s, n);
    if RootAdvances(cfg, s, s') {
      AckedStay(cfg, s', n - 1);
      AdvanceStays(cfg, s, s', last);
    } else {
      PollsFind(cfg, s', q, n - 1);
      AdvanceComes(cfg, s, s', last);
    }
  }

  lemma AdvanceStays<T>(cfg: Config<T>, s: State<T>, s': State<T>, last: State<T>)
    requires Shape(cfg, s) && Shape(cfg, s') && Shape(cfg, last) && RootAdvances(cfg, s, s')
    requires s'.ctl[cfg.root].acked <= last.ctl[cfg.root].acked && (s'.ctl[cfg.root].done ==> last.ctl[cfg.root].done)
    ensures RootAdvances(cfg, s, last)
  {}

  lemma AdvanceComes<T>(cfg: Config<T>, s: State<T>, s': State<T>, last: State<T>)
    requires Shape(cfg, s) && Shape(cfg, s') && Shape(cfg, last) && RootAdvances(cfg, s', last)
    requires s'.ctl[cfg.root].acked == s.ctl[cfg.root].acked
    ensures RootAdvances(cfg, s, last)
  {}

  /** No deadlock: while the root has not finished, a delivery is possible, or a rank that polls
      finishes, or within as many polls as there are ranks the root finishes or consumes a further ack. */
  lemma NoDeadlock<T(!new)>(cfg: Config<T>, s: State<T>)
    requires Reachable(cfg, s) && Shape(cfg, s) && !s.ctl[cfg.root].done
    requires forall r :: 0 <= r < cfg.p ==> s.ctl[r].started
    ensures Inv(cfg, s)
    ensures (exists t :: Deliverable(s.net, t))
            || (exists r :: 0 <= r < cfg.p && r != cfg.root && !s.ctl[r].done && Step(cfg, s, DoPoll(r)).ctl[r].done)
            || RootAdvances(cfg, s, RootPolls(cfg, s, cfg.p))
  {
    ReachableInv(cfg, s);
    if s.net.pending != multiset{} {
      var t :| t in s.net.pending;
      PendingAlone(cfg, s, t);
    } else if s.ctl[cfg.root].inProgress != 0 {
      var i := Missing(s.ctl[cfg.root].acked, cfg.p - 1);
      MissingAck(cfg, s, i);
      var r := Destination(cfg, i);
      if Ack(i) in s.net.procs[cfg.root].notes {
        PollsFind(cfg, s, i, cfg.p);
      } else {
        assert Step(cfg, s, DoPoll(r)).ctl[r].done;
      }
    } else {
      PollsFind(cfg, s, cfg.p - 1, cfg.p);
    }
  }

  /** An ack that the root misses, with nothing pending: it is there, or its sender finds its data. */
  lemma MissingAck<T>(cfg: Config<T>, s: State<T>, i: nat)
    requires Inv(cfg, s) && s.net.pending == multiset{} && s.ctl[cfg.root].started
    requires i < cfg.p - 1 && i !in s.ctl[cfg.root].acked
    ensures var r := Destination(cfg, i);
            Ack(i) in s.net.procs[cfg.root].notes || (!s.ctl[r].done && Dat in s.net.procs[r].notes)
  {
    var r := Destination(cfg, i);
    SendLegitimate(cfg, i);
    DestinationsBijective(cfg.p, cfg.root, i, r);
    assert Balanced(cfg, s, Notify(cfg.root, Ack(i)));
    assert Balanced(cfg, s, cfg.Send(i));
  }

  lemma {:induction false} Missing(a: set<nat>, n: nat) returns (i: nat)
    requires |a| < n
    ensures i < n && i !in a
  {
    if n - 1 in a {
      i := Missing(a - {n - 1}, n - 1);
    } else {
      i := n - 1;
    }
  }

  /** What a rank has still to do: to start, which posts fewer transfers than there are ranks, and to
      finish, which posts one. */
  function RankLeft(p: nat, ctl: Control): nat {
    (if ctl.started then 0 else p) + if ctl.done then 0 else 2
  }

  function AllRanksLeft(p: nat, ctl: seq<Control>, n: nat): nat
    requires n <= |ctl|
  {
    if n == 0 then 0 else AllRanksLeft(p, ctl, n - 1) + RankLeft(p, ctl[n - 1])
  }

  /** Ranks that have not finished, transfers that have not arrived, acks that the root has not consumed. */
  ghost function Measure<T>(cfg: Config<T>, s: State<T>): nat
    requires Shape(cfg, s)
  {
    var root := s.ctl[cfg.root];
    AllRanksLeft(cfg.p, s.ctl, cfg.p) + |s.net.pending| + if root.started then root.inProgress else cfg.p - 1
  }

  lemma {:induction false} OneRankLeft(p: nat, ctl: seq<Control>, r: nat, c: Control, n: nat)
    requires n <= |ctl| && r < |ctl|
    ensures AllRanksLeft(p, ctl[r := c], n) + (if r < n then RankLeft(p, ctl[r]) else 0)
            == AllRanksLeft(p, ctl, n) + if r < n then RankLeft(p, c) else 0
  {
    if n == 0 {
    } else {
      OneRankLeft(p, ctl, r, c, n - 1);
    }
  }

  /** A poll that finds nothing: at most the polling position of the root moves. */
  ghost predicate Idle<T>(cfg: Config<T>, s: State<T>, s': State<T>)
    requires Shape(cfg, s) && Shape(cfg, s')
  {
    && s'.net == s.net
    && s'.ctl == s.ctl[cfg.root := s.ctl[cfg.root].(poll := s'.ctl[cfg.root].poll)]
  }

  lemma StartMeasure<T>(cfg: Config<T>, s: State<T>, r: nat)
    requires Inv(cfg, s) && Enabled(cfg, s, DoStart(r)) && Shape(cfg, Step(cfg, s, DoStart(r)))
    ensures Measure(cfg, Step(cfg, s, DoStart(r))) < Measure(cfg, s)
  {
    var o := Start(cfg, r, s.ctl[r], s.net.procs[r]);
    OneRankLeft(cfg.p, s.ctl, r, o.ctl, cfg.p);
    SendsLength(cfg, cfg.p - 1);
    assert |s.net.pending + multiset(o.posts)| == |s.net.pending| + |o.posts|;
  }

  lemma RootMeasure<T>(cfg: Config<T>, s: State<T>)
    requires Inv(cfg, s) && Enabled(cfg, s, DoPoll(cfg.root)) && Shape(cfg, Step(cfg, s, DoPoll(cfg.root)))
    ensures var s' := Step(cfg, s, DoPoll(cfg.root));
            Measure(cfg, s') < Measure(cfg, s) || (Measure(cfg, s') == Measure(cfg, s) && Idle(cfg, s, s'))
  {
    var r := cfg.root;
    var o := Poll(cfg, r, s.ctl[r], s.net.procs[r]);
    OneRankLeft(cfg.p, s.ctl, r, o.ctl, cfg.p);
    assert s.net.pending + multiset(o.posts) == s.net.pending;
    if s.ctl[r].poll < cfg.p - 1 && Ack(s.ctl[r].poll) in s.net.procs[r].notes { AckIsNew(cfg, s); }
  }

  lemma OtherMeasure<T>(cfg: Config<T>, s: State<T>, r: nat)
    requires Inv(cfg, s) && Enabled(cfg, s, DoPoll(r)) && Shape(cfg, Step(cfg, s, DoPoll(r))) && r != cfg.root
    ensures var s' := Step(cfg, s, DoPoll(r));
            Measure(cfg, s') < Measure(cfg, s) || s' == s
  {
    var o := Poll(cfg, r, s.ctl[r], s.net.procs[r]);
    OneRankLeft(cfg.p, s.ctl, r, o.ctl, cfg.p);
    assert |s.net.pending + multiset(o.posts)| == |s.net.pending| + |o.posts|;
    if o.posts == [] { assert s.net.pending + multiset(o.posts) == s.net.pending; }
  }

  /** Every step lowers the measure, but for polls that find nothing, which change at most the polling
      position of the root. */
  lemma MeasureDecreases<T(!new)>(cfg: Config<T>, s: State<T>, a: Action)
    requires Reachable(cfg, s) && Shape(cfg, s) && Enabled(cfg, s, a)
    ensures var s' := Step(cfg, s, a);
            && Shape(cfg, s')
            && (Measure(cfg, s') < Measure(cfg, s)
                || (a.DoPoll? && Measure(cfg, s') == Measure(cfg, s) && Idle(cfg, s, s')))
  {
    ReachableInv(cfg, s);
    match a {
      case DoStart(r) =>
        StartInv(cfg, s, r);
        StartMeasure(cfg, s, r);
      case DoPoll(r) =>
        PollShape(cfg, s, r);
        if r == cfg.root { RootMeasure(cfg, s); } else { OtherMeasure(cfg, s, r); }
      case DoDeliver(t) =>
        DeliverInv(cfg, s, t);
        assert |s.net.pending - multiset{t}| + 1 == |s.net.pending|;
    }
  }
}
