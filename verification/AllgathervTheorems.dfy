/** One execution of ring allgatherv: the output is the concatenation of all inputs in rank order,
    nothing is overwritten while it is being sent, and no state is stuck. */
module AllgathervTheorems {
  import opened RingIndex
  import opened Transport
  import opened RingAllgatherv

  function B(b: bool): nat {
    if b then 1 else 0
  }

  /** Progress of a rank. */
  function Level(ctl: Control): nat {
    B(ctl.started) + ctl.step + B(ctl.done)
  }

  /** A transfer the algorithm can post. */
  ghost predicate Legitimate<T>(cfg: Config<T>, t: Msg)
    requires cfg.Valid()
  {
    && t.dst < cfg.p
    && if t.slot.Dat? then t.slot.i < cfg.p - 1 && t == Send(cfg, Prev(cfg.p, t.dst), t.slot.i)
       else t == Notify(t.dst, Ack(cfg.p - 2))
  }

  ghost function Sender<T>(cfg: Config<T>, t: Msg): (r: nat)
    requires cfg.Valid() && Legitimate(cfg, t)
    ensures r < cfg.p
  {
    if t.slot.Dat? then Prev(cfg.p, t.dst) else Next(cfg.p, t.dst)
  }

  /** The level at which a transfer is posted, and the level at which it has been consumed. */
  ghost function SendLevel<T>(cfg: Config<T>, t: Msg): nat {
    if t.slot.Dat? then 1 + t.slot.i else cfg.p
  }

  ghost function ConsumeLevel<T>(cfg: Config<T>, t: Msg): nat {
    SendLevel(cfg, t) + 1
  }

  ghost predicate Balanced<T>(cfg: Config<T>, s: State<T>, t: Msg)
    requires Shape(cfg, s)
  {
    Legitimate(cfg, t) ==>
      InFlight(s.net, t)
      == B(Level(s.ctl[Sender(cfg, t)]) >= SendLevel(cfg, t)) - B(Level(s.ctl[t.dst]) >= ConsumeLevel(cfg, t))
  }

  ghost predicate Counts<T>(cfg: Config<T>, s: State<T>) {
    && Shape(cfg, s)
    && (forall t :: t in s.net.pending ==> Legitimate(cfg, t))
    && forall t :: Balanced(cfg, s, t)
  }

  /** Target `i` holds its rank's input from the arrival on. */
  ghost predicate TargetAt<T>(cfg: Config<T>, s: State<T>, r: nat, i: nat)
    requires Shape(cfg, s) && r < cfg.p && i < cfg.p - 1
  {
    Dat(i) in s.net.procs[r].notes || Level(s.ctl[r]) >= 2 + i ==>
      s.net.procs[r].mem[Tgt(i)] == cfg.input(TargetOrigin(cfg.p, r, i))
  }

  ghost predicate ContentsAt<T>(cfg: Config<T>, s: State<T>, r: nat)
    requires Shape(cfg, s) && r < cfg.p
  {
    && s.net.procs[r].mem[Own] == cfg.input(r)
    && forall i :: 0 <= i < cfg.p - 1 ==> TargetAt(cfg, s, r, i)
  }

  ghost predicate Inv<T>(cfg: Config<T>, s: State<T>) {
    && Counts(cfg, s)
    && forall r :: 0 <= r < cfg.p ==> ContentsAt(cfg, s, r)
  }

  // ----- preservation -----

  lemma InitInv<T>(cfg: Config<T>, s: State<T>)
    requires Init(cfg, s)
    ensures Inv(cfg, s)
  {
    forall t ensures Balanced(cfg, s, t) {}
    forall r | 0 <= r < cfg.p ensures ContentsAt(cfg, s, r) {}
  }

  ghost function Consumed<T>(proc: Proc<T>, o: Outcome<T>): set<Slot> {
    proc.notes - o.proc.notes
  }

  lemma SenderIs<T>(cfg: Config<T>, r: nat, t: Msg)
    requires cfg.Valid() && r < cfg.p && Legitimate(cfg, t)
    ensures Sender(cfg, t) == r <==> t.dst == if t.slot.Dat? then Next(cfg.p, r) else Prev(cfg.p, r)
  {}

  /** What a call posts and consumes is what is due between its levels. */
  ghost predicate Effect<T>(cfg: Config<T>, r: nat, ctl: Control, proc: Proc<T>, o: Outcome<T>, t: Msg)
    requires cfg.Valid() && Legitimate(cfg, t)
  {
    && multiset(o.posts)[t] == (if Sender(cfg, t) == r
                                then B(Level(o.ctl) >= SendLevel(cfg, t)) - B(Level(ctl) >= SendLevel(cfg, t)) else 0)
    && (t.dst == r ==>
          B(t.slot in Consumed(proc, o))
          == B(Level(o.ctl) >= ConsumeLevel(cfg, t)) - B(Level(ctl) >= ConsumeLevel(cfg, t)))
  }

  lemma StartEffect<T>(cfg: Config<T>, r: nat, proc: Proc<T>, t: Msg)
    requires cfg.Valid() && r < cfg.p && Legitimate(cfg, t)
    ensures Effect(cfg, r, Control(false, 0, false), proc, Start(cfg, r, proc), t)
  {
    SenderIs(cfg, r, t);
  }

  lemma TriggerPosts<T>(cfg: Config<T>, r: nat, ctl: Control, proc: Proc<T>, t: Msg)
    requires cfg.Valid() && r < cfg.p && Legitimate(cfg, t) && ControlOk(cfg, ctl) && ctl.started && !ctl.done
    ensures var o := Trigger(cfg, r, ctl, proc);
            multiset(o.posts)[t]
            == if Sender(cfg, t) != r then 0
               else B(Level(o.ctl) >= SendLevel(cfg, t)) - B(Level(ctl) >= SendLevel(cfg, t))
  {
    SenderIs(cfg, r, t);
  }

  lemma TriggerEffect<T>(cfg: Config<T>, r: nat, ctl: Control, proc: Proc<T>, t: Msg)
    requires cfg.Valid() && r < cfg.p && Legitimate(cfg, t) && ControlOk(cfg, ctl) && ctl.started && !ctl.done
    ensures Effect(cfg, r, ctl, proc, Trigger(cfg, r, ctl, proc), t)
  {
    TriggerPosts(cfg, r, ctl, proc, t);
  }

  lemma LocalShape<T>(cfg: Config<T>, s: State<T>, a: Action)
    requires Shape(cfg, s) && Enabled(cfg, s, a) && !a.DoDeliver?
    ensures ControlOk(cfg, Local(cfg, s, a).ctl) && Local(cfg, s, a).proc.mem == s.net.procs[a.r].mem
    ensures Shape(cfg, Step(cfg, s, a))
  {}

  lemma LocalFrame<T>(cfg: Config<T>, s: State<T>, a: Action)
    requires Shape(cfg, s) && Enabled(cfg, s, a) && !a.DoDeliver?
    ensures var o := Local(cfg, s, a);
            && o.proc.mem == s.net.procs[a.r].mem
            && o.proc.notes == s.net.procs[a.r].notes - Consumed(s.net.procs[a.r], o)
            && forall t :: t in o.posts ==> Legitimate(cfg, t)
    ensures Shape(cfg, Step(cfg, s, a))
  {
    LocalShape(cfg, s, a);
  }

  lemma LocalCounts<T>(cfg: Config<T>, s: State<T>, a: Action)
    requires Counts(cfg, s) && Enabled(cfg, s, a) && !a.DoDeliver?
    ensures Counts(cfg, Step(cfg, s, a))
  {
    var s', o, proc := Step(cfg, s, a), Local(cfg, s, a), s.net.procs[a.r];
    LocalFrame(cfg, s, a);
    forall t ensures Balanced(cfg, s', t) {
      assert Balanced(cfg, s, t);
      if Legitimate(cfg, t) {
        if a.DoStart? { StartEffect(cfg, a.r, proc, t); } else { TriggerEffect(cfg, a.r, s.ctl[a.r], proc, t); }
        ActMovement(s.net, a.r, o.proc, o.posts, Consumed(proc, o), t);
      }
    }
    forall t | t in s'.net.pending ensures Legitimate(cfg, t) {
      assert t in s.net.pending || t in o.posts;
    }
  }

  lemma LocalContents<T>(cfg: Config<T>, s: State<T>, a: Action, r: nat)
    requires Inv(cfg, s) && Enabled(cfg, s, a) && !a.DoDeliver? && Shape(cfg, Step(cfg, s, a)) && r < cfg.p
    ensures ContentsAt(cfg, Step(cfg, s, a), r)
  {
    LocalFrame(cfg, s, a);
    assert ContentsAt(cfg, s, r);
    forall i | 0 <= i < cfg.p - 1 ensures TargetAt(cfg, Step(cfg, s, a), r, i) {
      assert TargetAt(cfg, s, r, i);
    }
  }

  /** A pending transfer is the only one of its kind, its notification is down, its sender has
      posted it and its receiver has not consumed it. */
  lemma PendingAlone<T>(cfg: Config<T>, s: State<T>, t: Msg)
    requires Counts(cfg, s) && t in s.net.pending
    ensures Legitimate(cfg, t) && Deliverable(s.net, t)
    ensures s.net.pending[t] == 1 && t.slot !in s.net.procs[t.dst].notes
    ensures Level(s.ctl[Sender(cfg, t)]) >= SendLevel(cfg, t) && Level(s.ctl[t.dst]) < ConsumeLevel(cfg, t)
  {
    assert Balanced(cfg, s, t);
  }

  /** What a pending write will copy: the input of the rank it carries. */
  lemma SourceHolds<T>(cfg: Config<T>, s: State<T>, t: Msg)
    requires Inv(cfg, s) && t in s.net.pending && t.Write?
    ensures Legitimate(cfg, t) && Deliverable(s.net, t)
    ensures s.net.procs[t.src].mem[t.from] == cfg.input(TargetOrigin(cfg.p, t.dst, t.slot.i))
  {
    PendingAlone(cfg, s, t);
    SizesMatch(cfg.p, t.src, t.slot.i);
    assert ContentsAt(cfg, s, t.src);
    if 0 < t.slot.i {
      SizesMatch(cfg.p, t.src, t.slot.i - 1);
      assert TargetAt(cfg, s, t.src, t.slot.i - 1);
    }
  }

  lemma DeliverShape<T>(cfg: Config<T>, s: State<T>, t: Msg)
    requires Inv(cfg, s) && Deliverable(s.net, t)
    ensures Shape(cfg, Step(cfg, s, DoDeliver(t)))
  {
    PendingAlone(cfg, s, t);
    if t.Write? { SourceHolds(cfg, s, t); }
    KeepsShape(cfg, s, t);
  }

  lemma KeepsShape<T>(cfg: Config<T>, s: State<T>, t: Msg)
    requires Shape(cfg, s) && Deliverable(s.net, t) && Legitimate(cfg, t)
    requires t.Write? ==> s.net.procs[t.src].mem[t.from] == cfg.input(TargetOrigin(cfg.p, t.dst, t.slot.i))
    ensures Shape(cfg, Step(cfg, s, DoDeliver(t)))
  {}

  lemma DeliverCounts<T>(cfg: Config<T>, s: State<T>, t: Msg)
    requires Inv(cfg, s) && Deliverable(s.net, t)
    ensures Counts(cfg, Step(cfg, s, DoDeliver(t)))
  {
    DeliverShape(cfg, s, t);
    PendingAlone(cfg, s, t);
    forall u ensures Balanced(cfg, Step(cfg, s, DoDeliver(t)), u) {
      assert Balanced(cfg, s, u);
      if Legitimate(cfg, u) { DeliverMovement(s.net, t, u); }
    }
  }

  lemma DeliverTarget<T>(cfg: Config<T>, s: State<T>, t: Msg, r: nat, i: nat)
    requires Shape(cfg, s) && Deliverable(s.net, t) && Shape(cfg, Step(cfg, s, DoDeliver(t))) && Legitimate(cfg, t)
    requires r < cfg.p && i < cfg.p - 1 && TargetAt(cfg, s, r, i)
    requires t.Write? ==> s.net.procs[t.src].mem[t.from] == cfg.input(TargetOrigin(cfg.p, t.dst, t.slot.i))
    ensures TargetAt(cfg, Step(cfg, s, DoDeliver(t)), r, i)
  {
    SizesMatch(cfg.p, Prev(cfg.p, r), i);
  }

  lemma DeliverContents<T>(cfg: Config<T>, s: State<T>, t: Msg, r: nat)
    requires Inv(cfg, s) && Deliverable(s.net, t) && Shape(cfg, Step(cfg, s, DoDeliver(t))) && r < cfg.p
    ensures ContentsAt(cfg, Step(cfg, s, DoDeliver(t)), r)
  {
    PendingAlone(cfg, s, t);
    assert ContentsAt(cfg, s, r);
    if t.Write? { SourceHolds(cfg, s, t); }
    forall i | 0 <= i < cfg.p - 1 ensures TargetAt(cfg, Step(cfg, s, DoDeliver(t)), r, i) {
      assert TargetAt(cfg, s, r, i);
      DeliverTarget(cfg, s, t, r, i);
    }
  }

  lemma StepInv<T>(cfg: Config<T>, s: State<T>, a: Action)
    requires Inv(cfg, s) && Enabled(cfg, s, a)
    ensures Inv(cfg, Step(cfg, s, a))
  {
    if a.DoDeliver? { DeliverCounts(cfg, s, a.t); } else { LocalCounts(cfg, s, a); }
    forall r | 0 <= r < cfg.p ensures ContentsAt(cfg, Step(cfg, s, a), r) {
      if a.DoDeliver? { DeliverContents(cfg, s, a.t, r); } else { LocalContents(cfg, s, a, r); }
    }
  }

  lemma {:induction false} RunInv<T>(cfg: Config<T>, run: seq<State<T>>, n: nat)
    requires IsRun(cfg, run) && n < |run|
    ensures Inv(cfg, run[n])
  {
    if n == 0 {
      InitInv(cfg, run[0]);
    } else {
      RunInv(cfg, run, n - 1);
      assert Transition(cfg, run[n - 1], run[n - 1 + 1]);
      var a :| Enabled(cfg, run[n - 1], a) && run[n] == Step(cfg, run[n - 1], a);
      StepInv(cfg, run[n - 1], a);
    }
  }

  lemma ReachableInv<T(!new)>(cfg: Config<T>, s: State<T>)
    requires Reachable(cfg, s)
    ensures Inv(cfg, s)
  {
    var run :| IsRun(cfg, run) && run[|run| - 1] == s;
    RunInv(cfg, run, |run| - 1);
  }

  // ----- the result -----

  /** The inputs of the first `n` ranks, one after the other. */
  ghost function Concatenation<T>(cfg: Config<T>, n: nat): seq<T>
    requires cfg.Valid() && n <= cfg.p
  {
    if n == 0 then [] else Concatenation(cfg, n - 1) + cfg.input(n - 1)
  }

  lemma {:induction false} PiecesConcatenate<T>(cfg: Config<T>, s: State<T>, r: nat, n: nat)
    requires Inv(cfg, s) && r < cfg.p && s.ctl[r].step == cfg.p - 1 && s.ctl[r].started && n <= cfg.p
    ensures CopyOut(cfg, r, s.net.procs[r], n) == Concatenation(cfg, n)
  {
    if n == 0 {
    } else {
      PiecesConcatenate(cfg, s, r, n - 1);
      assert ContentsAt(cfg, s, r);
      if n - 1 != r {
        assert TargetAt(cfg, s, r, Dist(cfg.p, r, n - 1) - 1);
      }
    }
  }

  /** When a rank has finished, its output is the concatenation of all inputs in rank order,
      whatever the interleaving and whichever counts are zero. */
  lemma OutputIsConcatenation<T(!new)>(cfg: Config<T>, s: State<T>, r: nat)
    requires Reachable(cfg, s) && Shape(cfg, s) && r < cfg.p && s.ctl[r].done
    ensures CopyOut(cfg, r, s.net.procs[r], cfg.p) == Concatenation(cfg, cfg.p)
  {
    ReachableInv(cfg, s);
    PiecesConcatenate(cfg, s, r, cfg.p);
  }

  // ----- hazards -----

  /** A cell is written by at most one pending transfer, and never while a transfer out of it is
      pending: the receive buffer that is being forwarded is not overwritten. */
  lemma ForwardedCellIsStable<T(!new)>(cfg: Config<T>, s: State<T>, t: Msg, u: Msg)
    requires Reachable(cfg, s) && t in s.net.pending && u in s.net.pending && t.Write? && u.Write?
    ensures !(t.src == u.dst && t.from == u.into)
    ensures t.dst == u.dst && t.into == u.into ==> t == u
    ensures s.net.pending[t] == 1
  {
    ReachableInv(cfg, s);
    PendingAlone(cfg, s, t);
    PendingAlone(cfg, s, u);
  }

  // ----- progress -----

  lemma {:induction false} Slowest<T>(s: State<T>, n: nat) returns (r: nat)
    requires 0 < n <= |s.ctl|
    ensures r < n && forall y :: 0 <= y < n ==> Level(s.ctl[r]) <= Level(s.ctl[y])
  {
    r := 0;
    if n == 1 {
    } else {
      r := Slowest(s, n - 1);
      if Level(s.ctl[n - 1]) < Level(s.ctl[r]) { r := n - 1; }
    }
  }

  /** No deadlock: once all ranks have started, a delivery is possible, or a call of triggerProgress
      of some rank makes progress, or all have finished. */
  lemma NoDeadlock<T(!new)>(cfg: Config<T>, s: State<T>)
    requires Reachable(cfg, s) && Shape(cfg, s)
    requires forall r :: 0 <= r < cfg.p ==> s.ctl[r].started
    ensures (exists t :: Deliverable(s.net, t))
            || (exists r :: Enabled(cfg, s, DoTrigger(r)) && Step(cfg, s, DoTrigger(r)) != s)
            || (forall r :: 0 <= r < cfg.p ==> s.ctl[r].done)
  {
    ReachableInv(cfg, s);
    if s.net.pending != multiset{} {
      var t :| t in s.net.pending;
      PendingAlone(cfg, s, t);
    } else {
      var r := Slowest(s, cfg.p);
      if s.ctl[r].done {
        assert forall y :: 0 <= y < cfg.p ==> Level(s.ctl[r]) <= Level(s.ctl[y]);
      } else {
        SlowestAdvances(cfg, s, r);
      }
    }
  }

  lemma SlowestAdvances<T>(cfg: Config<T>, s: State<T>, r: nat)
    requires Inv(cfg, s) && s.net.pending == multiset{} && r < cfg.p && s.ctl[r].started && !s.ctl[r].done
    requires forall y :: 0 <= y < cfg.p ==> Level(s.ctl[r]) <= Level(s.ctl[y])
    ensures Enabled(cfg, s, DoTrigger(r)) && Step(cfg, s, DoTrigger(r)) != s
  {
    var i := s.ctl[r].step;
    var t := if i == cfg.p - 1 then Notify(r, Ack(cfg.p - 2)) else Send(cfg, Prev(cfg.p, r), i);
    assert Balanced(cfg, s, t);
    assert Step(cfg, s, DoTrigger(r)).ctl[r] == Local(cfg, s, DoTrigger(r)).ctl;
  }

  /** Levels still to climb by the ranks below `n`. */
  ghost function Remaining<T>(cfg: Config<T>, s: State<T>, n: nat): nat
    requires Shape(cfg, s) && n <= cfg.p
  {
    if n == 0 then 0 else Remaining(cfg, s, n - 1) + cfg.p + 1 - Level(s.ctl[n - 1])
  }

  lemma {:induction false} RemainingChange<T>(cfg: Config<T>, s: State<T>, s': State<T>, r: nat, n: nat)
    requires Shape(cfg, s) && Shape(cfg, s') && r < cfg.p && n <= cfg.p && s'.ctl == s.ctl[r := s'.ctl[r]]
    ensures Remaining(cfg, s', n) == Remaining(cfg, s, n) + if r < n then Level(s.ctl[r]) - Level(s'.ctl[r]) else 0
  {
    if n == 0 {
    } else {
      RemainingChange(cfg, s, s', r, n - 1);
    }
  }

  ghost function Measure<T>(cfg: Config<T>, s: State<T>): nat
    requires Shape(cfg, s)
  {
    2 * Remaining(cfg, s, cfg.p) + |s.net.pending|
  }

  /** A productive call moves its rank up exactly one level: a rank takes p - 1 receive steps and
      one ack step after its start. */
  lemma CallsClimb<T>(cfg: Config<T>, s: State<T>, a: Action)
    requires Shape(cfg, s) && Enabled(cfg, s, a) && !a.DoDeliver? && Step(cfg, s, a) != s
    ensures Level(Local(cfg, s, a).ctl) == Level(s.ctl[a.r]) + 1 <= cfg.p + 1 && |Local(cfg, s, a).posts| <= 1
  {
    assert s.ctl[a.r := s.ctl[a.r]] == s.ctl;
    assert s.net.procs[a.r := s.net.procs[a.r]] == s.net.procs;
    assert s.net.pending + multiset([]) == s.net.pending;
  }

  lemma MeasureDecreases<T(!new)>(cfg: Config<T>, s: State<T>, a: Action)
    requires Reachable(cfg, s) && Shape(cfg, s) && Enabled(cfg, s, a) && Step(cfg, s, a) != s
    ensures Shape(cfg, Step(cfg, s, a)) && Measure(cfg, Step(cfg, s, a)) < Measure(cfg, s)
  {
    ReachableInv(cfg, s);
    StepInv(cfg, s, a);
    var s' := Step(cfg, s, a);
    if a.DoDeliver? {
      assert s.ctl[0 := s'.ctl[0]] == s'.ctl;
      RemainingChange(cfg, s, s', 0, cfg.p);
    } else {
      CallsClimb(cfg, s, a);
      RemainingChange(cfg, s, s', a.r, cfg.p);
      assert |s'.net.pending| == |s.net.pending| + |Local(cfg, s, a).posts|;
    }
  }
}
