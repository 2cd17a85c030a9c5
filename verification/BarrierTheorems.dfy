/** The barrier over unboundedly many episodes: safety, no lost or overrun notification, and
    progress. */
module BarrierTheorems {
  import opened Bits
  import opened RingIndex
  import opened Transport
  import opened DisseminationBarrier

  function B(b: bool): nat {
    if b then 1 else 0
  }

  /** Position inside an episode. */
  function Position(ctl: Control): nat {
    4 * ctl.step + match ctl.phase case InitTransfer => 0 case WaitData => 1 case AckData => 2 case WaitAck => 3
  }

  /** How often a rank has gone past position `q` of an episode. */
  function Passed(ctl: Control, q: nat): nat {
    ctl.episodes + B(ctl.inside && Position(ctl) > q)
  }

  /** The notifications the barrier uses, their sender, and the positions at which they are posted
      and consumed. */
  ghost predicate Legitimate(cfg: Config, t: Msg)
    requires cfg.Valid()
  {
    t.Notify? && t.dst < cfg.p && t.slot.i < cfg.steps
  }

  ghost function Sender(cfg: Config, t: Msg): (r: nat)
    requires cfg.Valid() && Legitimate(cfg, t)
    ensures r < cfg.p
  {
    if t.slot.Dat? then Source(cfg, t.dst, t.slot.i) else Target(cfg, t.dst, t.slot.i)
  }

  function SendPosition(t: Msg): nat {
    4 * t.slot.i + if t.slot.Dat? then 0 else 2
  }

  /** Nothing is lost and nothing is consumed twice. */
  ghost predicate Balanced(cfg: Config, s: State, t: Msg)
    requires Shape(cfg, s)
  {
    Legitimate(cfg, t) ==>
      InFlight(s.net, t) == Passed(s.ctl[Sender(cfg, t)], SendPosition(t)) - Passed(s.ctl[t.dst], SendPosition(t) + 1)
  }

  ghost predicate Inv(cfg: Config, s: State) {
    && Shape(cfg, s)
    && (forall t :: t in s.net.pending ==> Legitimate(cfg, t))
    && forall t :: Balanced(cfg, s, t)
  }

  // ----- preservation -----

  lemma InitInv(cfg: Config, s: State)
    requires Init(cfg, s)
    ensures Inv(cfg, s)
  {
    forall t ensures Balanced(cfg, s, t) {}
  }

  lemma EnterInv(cfg: Config, s: State, r: nat)
    requires Inv(cfg, s) && Enabled(cfg, s, DoEnter(r))
    ensures Inv(cfg, Step(cfg, s, DoEnter(r)))
  {
    var s' := Step(cfg, s, DoEnter(r));
    forall t ensures Balanced(cfg, s', t) {
      assert Balanced(cfg, s, t);
    }
  }

  /** What one action posts and consumes, in terms of positions. */
  ghost predicate Effect(cfg: Config, r: nat, ctl: Control, o: Outcome, consumed: set<Slot>, t: Msg)
    requires cfg.Valid() && Legitimate(cfg, t)
  {
    && multiset(o.posts)[t]
       == (if Sender(cfg, t) == r then Passed(o.ctl, SendPosition(t)) - Passed(ctl, SendPosition(t)) else 0)
    && (t.dst == r ==> B(t.slot in consumed) == Passed(o.ctl, SendPosition(t) + 1) - Passed(ctl, SendPosition(t) + 1))
  }

  ghost function Consumed(notes: set<Slot>, o: Outcome): set<Slot> {
    notes - o.notes
  }

  lemma SenderIs(cfg: Config, r: nat, t: Msg)
    requires cfg.Valid() && r < cfg.p && Legitimate(cfg, t)
    ensures Sender(cfg, t) == r <==> t.dst == if t.slot.Dat? then Target(cfg, r, t.slot.i) else Source(cfg, r, t.slot.i)
  {
    PartnersInverse(cfg, r, t.slot.i);
    PartnersInverse(cfg, t.dst, t.slot.i);
  }

  lemma AdvancePosts(cfg: Config, r: nat, ctl: Control, notes: set<Slot>, t: Msg)
    requires cfg.Valid() && r < cfg.p && ControlOk(cfg, ctl) && ctl.inside && Legitimate(cfg, t)
    ensures multiset(Advance(cfg, r, ctl, notes).posts)[t]
            == if Sender(cfg, t) == r
               then Passed(Advance(cfg, r, ctl, notes).ctl, SendPosition(t)) - Passed(ctl, SendPosition(t)) else 0
  {
    SenderIs(cfg, r, t);
    var posts := Advance(cfg, r, ctl, notes).posts;
    if ctl.phase.InitTransfer? && ctl.step < cfg.steps {
      assert posts == [Notify(Target(cfg, r, ctl.step), Dat(ctl.step))];
    } else if ctl.phase.AckData? {
      assert posts == [Notify(Source(cfg, r, ctl.step), Ack(ctl.step))];
    } else {
      assert posts == [];
    }
  }

  lemma AdvanceConsumes(cfg: Config, r: nat, ctl: Control, notes: set<Slot>, t: Msg)
    requires cfg.Valid() && r < cfg.p && ControlOk(cfg, ctl) && ctl.inside && Legitimate(cfg, t) && t.dst == r
    ensures B(t.slot in Consumed(notes, Advance(cfg, r, ctl, notes)))
            == Passed(Advance(cfg, r, ctl, notes).ctl, SendPosition(t) + 1) - Passed(ctl, SendPosition(t) + 1)
  {}

  lemma AdvanceEffect(cfg: Config, r: nat, ctl: Control, notes: set<Slot>, t: Msg)
    requires cfg.Valid() && r < cfg.p && ControlOk(cfg, ctl) && ctl.inside && Legitimate(cfg, t)
    ensures var o := Advance(cfg, r, ctl, notes);
            && o.notes == notes - Consumed(notes, o)
            && Effect(cfg, r, ctl, o, Consumed(notes, o), t)
  {
    AdvancePosts(cfg, r, ctl, notes, t);
    if t.dst == r { AdvanceConsumes(cfg, r, ctl, notes, t); }
  }

  lemma AdvanceInv(cfg: Config, s: State, r: nat)
    requires Inv(cfg, s) && Enabled(cfg, s, DoAdvance(r))
    ensures Inv(cfg, Step(cfg, s, DoAdvance(r)))
  {
    var s', o := Step(cfg, s, DoAdvance(r)), Local(cfg, s, r);
    var notes := s.net.procs[r].notes;
    assert ControlOk(cfg, o.ctl);
    forall t ensures Balanced(cfg, s', t) {
      assert Balanced(cfg, s, t);
      if Legitimate(cfg, t) {
        AdvanceEffect(cfg, r, s.ctl[r], notes, t);
        ActMovement(s.net, r, s'.net.procs[r], o.posts, Consumed(notes, o), t);
      }
    }
    forall t | t in s'.net.pending ensures Legitimate(cfg, t) {
      assert t in s.net.pending || t in o.posts;
    }
  }

  /** A pending notification is the only one of its kind, and its target is down. */
  lemma PendingAlone(cfg: Config, s: State, t: Msg)
    requires Inv(cfg, s) && t in s.net.pending
    ensures Legitimate(cfg, t) && s.net.pending[t] == 1 && t.slot !in s.net.procs[t.dst].notes
  {
    NoOverrun(cfg, s, t);
  }

  /** Each data or ack notification is consumed before the next of its kind is posted. */
  lemma NoOverrun(cfg: Config, s: State, t: Msg)
    requires Inv(cfg, s) && Legitimate(cfg, t)
    ensures InFlight(s.net, t) <= 1
  {
    var x := Sender(cfg, t);
    PartnersInverse(cfg, t.dst, t.slot.i);
    assert Balanced(cfg, s, t);
    // the message in the other direction of the same pair of buffers
    var u := Notify(x, if t.slot.Dat? then Ack(t.slot.i) else Dat(t.slot.i));
    assert Balanced(cfg, s, u);
  }

  lemma DeliverInv(cfg: Config, s: State, t: Msg)
    requires Inv(cfg, s) && Deliverable(s.net, t)
    ensures Inv(cfg, Step(cfg, s, DoDeliver(t)))
  {
    var s' := Step(cfg, s, DoDeliver(t));
    PendingAlone(cfg, s, t);
    forall u ensures Balanced(cfg, s', u) {
      assert Balanced(cfg, s, u);
      if Legitimate(cfg, u) { DeliverMovement(s.net, t, u); }
    }
  }

  lemma StepInv(cfg: Config, s: State, a: Action)
    requires Inv(cfg, s) && Enabled(cfg, s, a)
    ensures Inv(cfg, Step(cfg, s, a))
  {
    match a {
      case DoEnter(r) => EnterInv(cfg, s, r);
      case DoAdvance(r) => AdvanceInv(cfg, s, r);
      case DoDeliver(t) => DeliverInv(cfg, s, t);
    }
  }

  lemma {:induction false} RunInv(cfg: Config, run: seq<State>, n: nat)
    requires IsRun(cfg, run) && n < |run|
    ensures Inv(cfg, run[n])
  {
    if n == 0 {
      InitInv(cfg, run[0]);
    } else {
      RunInv(cfg, run, n - 1);
      assert Transition(cfg, run[n - 1], run[n - 1 + 1]);
      var a :| Enabled(cfg, run[n - 1], a) && run[n] == Step(cfg, run[n - 1], a);
      StepInv(cfg, run[n - 1], a);
    }
  }

  lemma ReachableInv(cfg: Config, s: State)
    requires Reachable(cfg, s)
    ensures Inv(cfg, s)
  {
    var run :| IsRun(cfg, run) && run[|run| - 1] == s;
    RunInv(cfg, run, |run| - 1);
  }

  // ----- safety -----

  /** A rank that has received the signal of step `i` in its k-th episode knows that the 2^(i+1)
      ranks ending at itself have entered theirs. */
  lemma {:induction false} KnownPredecessors(cfg: Config, s: State, r: nat, i: nat, k: nat, d: nat)
    requires Inv(cfg, s) && r < cfg.p && i < cfg.steps && d < Pow2(i + 1) && d <= cfg.p
    requires Passed(s.ctl[r], 4 * i + 1) >= k
    ensures Entered(s, Back(cfg.p, r, d)) >= k
    decreases i
  {
    var x, t := Source(cfg, r, i), Notify(r, Dat(i));
    HopBound(cfg, i);
    assert Balanced(cfg, s, t);
    assert Passed(s.ctl[x], 4 * i) >= k;
    if d < Pow2(i) {
      if 0 < i { KnownPredecessors(cfg, s, r, i - 1, k, d); }
    } else {
      assert Back(cfg.p, r, d) == Back(cfg.p, x, d - Pow2(i));
      if 0 < i { KnownPredecessors(cfg, s, x, i - 1, k, d - Pow2(i)); }
    }
  }

  /** When a rank has returned from its k-th execute, every rank has entered its k-th execute. */
  lemma Safety(cfg: Config, s: State, r: nat, y: nat)
    requires Reachable(cfg, s) && Shape(cfg, s) && r < cfg.p && y < cfg.p
    ensures Completed(s, r) <= Entered(s, y)
  {
    ReachableInv(cfg, s);
    if 1 < cfg.p {
      KnownPredecessors(cfg, s, r, cfg.steps - 1, Completed(s, r), Dist(cfg.p, r, y));
    }
  }

  lemma CountsDifferByOne(cfg: Config, s: State, r: nat, y: nat)
    requires Reachable(cfg, s) && Shape(cfg, s) && r < cfg.p && y < cfg.p
    ensures -1 <= Completed(s, r) - Completed(s, y) <= 1
  {
    Safety(cfg, s, r, y);
    Safety(cfg, s, y, r);
  }

  /** In every reachable state each notification has been posted at most once more than consumed. */
  lemma AtMostOneInFlight(cfg: Config, s: State, t: Msg)
    requires Reachable(cfg, s) && Shape(cfg, s) && t.dst < cfg.p && t.slot.i < cfg.steps && t.Notify?
    ensures InFlight(s.net, t) <= 1
  {
    ReachableInv(cfg, s);
    NoOverrun(cfg, s, t);
  }

  // ----- progress -----

  /** A delivery, or an action of a rank inside execute that is not waiting in vain. */
  ghost predicate Productive(cfg: Config, s: State, a: Action)
    requires Shape(cfg, s)
  {
    Enabled(cfg, s, a) && !a.DoEnter? && Step(cfg, s, a) != s
  }

  ghost predicate Behind(s: State, x: nat, y: nat)
    requires x < |s.ctl| && y < |s.ctl|
  {
    || s.ctl[y].episodes < s.ctl[x].episodes
    || (s.ctl[y].episodes == s.ctl[x].episodes && Position(s.ctl[y]) < Position(s.ctl[x]))
  }

  /** A rank that is stuck waits for a rank that is behind it. */
  lemma WaitsForOneBehind(cfg: Config, s: State, x: nat) returns (y: nat)
    requires Inv(cfg, s) && x < cfg.p && s.ctl[x].inside && s.net.pending == multiset{}
    requires !Productive(cfg, s, DoAdvance(x))
    ensures y < cfg.p && Behind(s, x, y)
  {
    var ctl := s.ctl[x];
    var s' := Step(cfg, s, DoAdvance(x));
    assert s'.ctl[x] == Local(cfg, s, x).ctl;
    assert ctl.phase.WaitData? || ctl.phase.WaitAck?;
    var t := Notify(x, if ctl.phase.WaitData? then Dat(ctl.step) else Ack(ctl.step));
    y := Sender(cfg, t);
    assert Balanced(cfg, s, t);
  }

  /** Of the ranks up to `n`, one that is not ahead of any other. */
  lemma {:induction false} Slowest(s: State, n: nat) returns (x: nat)
    requires 0 < n <= |s.ctl|
    ensures x < n && forall y :: 0 <= y < n ==> !Behind(s, x, y)
  {
    x := 0;
    if n == 1 {
    } else {
      var w := Slowest(s, n - 1);
      x := if Behind(s, w, n - 1) then n - 1 else w;
      forall y | 0 <= y < n ensures !Behind(s, x, y) {
        assert y < n - 1 ==> !Behind(s, w, y);
      }
    }
  }

  /** No deadlock: as long as every rank has entered its k-th execute and some rank has not yet
      returned from it, a delivery or a rank inside execute can make progress. */
  lemma NoDeadlock(cfg: Config, s: State, k: nat, z: nat)
    requires Reachable(cfg, s) && Shape(cfg, s) && z < cfg.p && Completed(s, z) < k
    requires forall r :: 0 <= r < cfg.p ==> Entered(s, r) >= k
    ensures exists a :: Productive(cfg, s, a)
  {
    ReachableInv(cfg, s);
    if s.net.pending != multiset{} {
      var t :| t in s.net.pending;
      PendingAlone(cfg, s, t);
      assert Step(cfg, s, DoDeliver(t)).net.pending[t] == 0;
      assert Productive(cfg, s, DoDeliver(t));
    } else {
      var x := Slowest(s, cfg.p);
      assert !Behind(s, x, z) && Entered(s, x) >= k;
      if !Productive(cfg, s, DoAdvance(x)) {
        var y := WaitsForOneBehind(cfg, s, x);
      }
    }
  }

  /** What is left to do for the ranks below `n` that are inside execute. */
  ghost function Remaining(cfg: Config, s: State, n: nat): nat
    requires Shape(cfg, s) && n <= cfg.p
  {
    if n == 0 then 0
    else Remaining(cfg, s, n - 1) + if s.ctl[n - 1].inside then 4 * cfg.steps + 1 - Position(s.ctl[n - 1]) else 0
  }

  ghost function Measure(cfg: Config, s: State): nat
    requires Shape(cfg, s)
  {
    2 * Remaining(cfg, s, cfg.p) + |s.net.pending|
  }

  lemma {:induction false} RemainingChange(cfg: Config, s: State, s': State, r: nat, n: nat)
    requires Shape(cfg, s) && Shape(cfg, s') && r < cfg.p && n <= cfg.p && s.ctl[r].inside
    requires s'.ctl == s.ctl[r := s'.ctl[r]]
    ensures Remaining(cfg, s', n) == Remaining(cfg, s, n)
            + if r < n then (if s'.ctl[r].inside then 4 * cfg.steps + 1 - Position(s'.ctl[r]) else 0)
                            - (4 * cfg.steps + 1 - Position(s.ctl[r])) else 0
  {
    if n == 0 {
    } else {
      RemainingChange(cfg, s, s', r, n - 1);
    }
  }

  lemma {:induction false} SameRemaining(cfg: Config, s: State, s': State, n: nat)
    requires Shape(cfg, s) && Shape(cfg, s') && n <= cfg.p && s'.ctl == s.ctl
    ensures Remaining(cfg, s', n) == Remaining(cfg, s, n)
  {
    if n == 0 {
    } else {
      SameRemaining(cfg, s, s', n - 1);
    }
  }

  /** An action that changes nothing of the control neither consumes nor posts. */
  lemma IdleAdvance(cfg: Config, s: State, r: nat)
    requires Shape(cfg, s) && Enabled(cfg, s, DoAdvance(r)) && Local(cfg, s, r).ctl == s.ctl[r]
    ensures Step(cfg, s, DoAdvance(r)) == s
  {
    assert s.ctl[r := s.ctl[r]] == s.ctl;
    assert s.net.procs[r := s.net.procs[r]] == s.net.procs;
    assert s.net.pending + multiset([]) == s.net.pending;
  }

  lemma AdvanceProgress(cfg: Config, r: nat, ctl: Control, notes: set<Slot>)
    requires cfg.Valid() && r < cfg.p && ControlOk(cfg, ctl) && ctl.inside
    ensures var o := Advance(cfg, r, ctl, notes);
            && |o.posts| <= 1
            && (o.ctl == ctl || !o.ctl.inside || Position(o.ctl) == Position(ctl) + 1)
            && (!o.ctl.inside ==> o.posts == [] && Position(ctl) == 4 * cfg.steps)
  {}

  /** Without a new call of execute only finitely many productive steps are possible. */
  lemma MeasureDecreases(cfg: Config, s: State, a: Action)
    requires Reachable(cfg, s) && Shape(cfg, s) && Productive(cfg, s, a)
    ensures Shape(cfg, Step(cfg, s, a)) && Measure(cfg, Step(cfg, s, a)) < Measure(cfg, s)
  {
    ReachableInv(cfg, s);
    StepInv(cfg, s, a);
    var s' := Step(cfg, s, a);
    if a.DoDeliver? {
      SameRemaining(cfg, s, s', cfg.p);
    } else {
      var o := Local(cfg, s, a.r);
      if o.ctl == s.ctl[a.r] { IdleAdvance(cfg, s, a.r); }
      RemainingChange(cfg, s, s', a.r, cfg.p);
      AdvanceProgress(cfg, a.r, s.ctl[a.r], s.net.procs[a.r].notes);
      assert |s'.net.pending| == |s.net.pending| + |o.posts|;
    }
  }
}
