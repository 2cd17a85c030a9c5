/** Every step of the ring allreduce machine preserves the counts. */
module RingCounts {
  import opened RingIndex
  import opened Reduction
  import opened Transport
  import opened RingAllreduce
  import opened RingInvariant

  lemma InitCounts<T>(cfg: Config<T>, s: State<T>)
    requires Init(cfg, s)
    ensures Counts(cfg, s)
  {}

  /** What a step of rank `r` does to the messages: it posts `posts` and consumes the
      notifications in `consumed`. */
  ghost predicate Moves<T>(cfg: Config<T>, s: State<T>, s': State<T>, r: nat, posts: multiset<Msg>, consumed: set<Slot>)
    requires Shape(cfg, s) && r < cfg.p
  {
    && Shape(cfg, s')
    && s'.net.pending == s.net.pending + posts
    && (forall x :: 0 <= x < cfg.p && x != r ==>
                      && s'.ctl[x] == s.ctl[x] && s'.rounds[x] == s.rounds[x]
                      && s'.net.procs[x].notes == s.net.procs[x].notes)
    && s'.net.procs[r].notes == s.net.procs[r].notes - consumed
    && consumed <= s.net.procs[r].notes
  }

  lemma Movement<T>(cfg: Config<T>, s: State<T>, s': State<T>, r: nat, posts: multiset<Msg>, consumed: set<Slot>,
                    t: Msg)
    requires Shape(cfg, s) && r < cfg.p && t.dst < cfg.p
    requires Moves(cfg, s, s', r, posts, consumed)
    ensures InFlight(s'.net, t) == InFlight(s.net, t) + posts[t] - if t.dst == r && t.slot in consumed then 1 else 0
  {}

  lemma CopyInShape<T>(cfg: Config<T>, s: State<T>, r: nat)
    requires Shape(cfg, s) && Enabled(cfg, s, DoCopyIn(r))
    ensures Shape(cfg, Step(cfg, s, DoCopyIn(r)))
  {}

  lemma StartShape<T>(cfg: Config<T>, s: State<T>, r: nat)
    requires Shape(cfg, s) && Enabled(cfg, s, DoStart(r))
    ensures Shape(cfg, Step(cfg, s, DoStart(r)))
  {}

  lemma CopyOutShape<T>(cfg: Config<T>, s: State<T>, r: nat)
    requires Shape(cfg, s) && Enabled(cfg, s, DoCopyOut(r))
    ensures Shape(cfg, Step(cfg, s, DoCopyOut(r)))
  {}

  lemma TriggerKeeps<T>(cfg: Config<T>, r: nat, ctl: Control, proc: Proc<T>)
    requires cfg.Valid() && ControlOk(cfg, r, ctl) && Allocated(cfg, proc) && ctl.phase.Running?
    ensures ControlOk(cfg, r, Trigger(cfg, r, ctl, proc).ctl) && Allocated(cfg, Trigger(cfg, r, ctl, proc).proc)
  {}

  lemma TriggerShape<T>(cfg: Config<T>, s: State<T>, r: nat)
    requires Shape(cfg, s) && Enabled(cfg, s, DoTrigger(r))
    ensures Shape(cfg, Step(cfg, s, DoTrigger(r)))
  {
    TriggerKeeps(cfg, r, s.ctl[r], s.net.procs[r]);
  }

  lemma DeliverShape<T>(cfg: Config<T>, s: State<T>, t: Msg)
    requires Shape(cfg, s) && Deliverable(s.net, t) && Legitimate(cfg.p, t)
    ensures Shape(cfg, Step(cfg, s, DoDeliver(t)))
  {}

  // ----- steps that move no message -----

  lemma QuietLink<T>(cfg: Config<T>, s: State<T>, s': State<T>, r: nat, x: nat, m: nat)
    requires Shape(cfg, s) && r < cfg.p && x < cfg.p && m <= 2 * cfg.p - 3
    requires Moves(cfg, s, s', r, multiset{}, {}) && Pos(s', r) == Pos(s, r) && s'.rounds[r] == s.rounds[r]
    requires LinkAt(cfg, s, x, m)
    ensures LinkAt(cfg, s', x, m)
  {
    Movement(cfg, s, s', r, multiset{}, {}, Into(cfg.p, x, m));
  }

  lemma QuietAck<T>(cfg: Config<T>, s: State<T>, s': State<T>, r: nat, x: nat)
    requires Shape(cfg, s) && r < cfg.p && x < cfg.p
    requires Moves(cfg, s, s', r, multiset{}, {}) && Pos(s', r) == Pos(s, r) && s'.rounds[r] == s.rounds[r]
    requires AckAt(cfg, s, x)
    ensures AckAt(cfg, s', x)
  {
    Movement(cfg, s, s', r, multiset{}, {}, AckFrom(cfg.p, x));
  }

  lemma QuietCounts<T>(cfg: Config<T>, s: State<T>, s': State<T>, r: nat)
    requires Counts(cfg, s) && r < cfg.p
    requires Moves(cfg, s, s', r, multiset{}, {}) && Pos(s', r) == Pos(s, r) && s'.rounds[r] == s.rounds[r]
    ensures Counts(cfg, s')
  {
    forall x, m | 0 <= x < cfg.p && 0 <= m <= 2 * cfg.p - 3 ensures LinkAt(cfg, s', x, m) {
      assert LinkAt(cfg, s, x, m);
      QuietLink(cfg, s, s', r, x, m);
    }
    forall x | 0 <= x < cfg.p ensures AckAt(cfg, s', x) {
      assert AckAt(cfg, s, x);
      QuietAck(cfg, s, s', r, x);
    }
  }

  lemma CopyInCounts<T>(cfg: Config<T>, s: State<T>, r: nat)
    requires Counts(cfg, s) && Enabled(cfg, s, DoCopyIn(r))
    ensures Counts(cfg, Step(cfg, s, DoCopyIn(r)))
  {
    CopyInShape(cfg, s, r);
    QuietCounts(cfg, s, Step(cfg, s, DoCopyIn(r)), r);
  }

  lemma CopyOutCounts<T>(cfg: Config<T>, s: State<T>, r: nat)
    requires Counts(cfg, s) && Enabled(cfg, s, DoCopyOut(r))
    ensures Counts(cfg, Step(cfg, s, DoCopyOut(r)))
  {
    CopyOutShape(cfg, s, r);
    QuietCounts(cfg, s, Step(cfg, s, DoCopyOut(r)), r);
  }

  // ----- start and triggerProgress -----

  /** What rank `r` sends when it moves to position `q`, and what it consumes. */
  ghost function Sends(p: nat, r: nat, q: nat): Msg
    requires r < p && 2 <= p && 1 <= q <= 2 * p - 1
  {
    if q <= 2 * p - 2 then Into(p, Next(p, r), q - 1) else AckFrom(p, r)
  }

  ghost function Consumes(p: nat, r: nat, q: nat): set<Slot>
    requires r < p && 2 <= p && 1 <= q <= 2 * p - 1
  {
    if q == 1 then {} else {Into(p, r, q - 2).slot}
  }

  lemma SendsMessage(p: nat, r: nat, q: nat, x: nat, m: nat)
    requires 2 <= p && r < p && x < p && m <= 2 * p - 3 && 1 <= q <= 2 * p - 1
    ensures Into(p, x, m) == Sends(p, r, q) <==> x == Next(p, r) && m + 1 == q
  {
    NumberInto(p, x, m);
    if q <= 2 * p - 2 { NumberInto(p, Next(p, r), q - 1); }
  }

  lemma ConsumesMessage(p: nat, r: nat, q: nat, m: nat)
    requires 2 <= p && r < p && m <= 2 * p - 3 && 1 <= q <= 2 * p - 1
    ensures Into(p, r, m).slot in Consumes(p, r, q) <==> m + 2 == q
  {
    NumberInto(p, r, m);
    if q >= 2 { NumberInto(p, r, q - 2); }
  }

  lemma AdvanceLink<T>(cfg: Config<T>, s: State<T>, s': State<T>, r: nat, q: nat, x: nat, m: nat)
    requires Shape(cfg, s) && r < cfg.p && 1 <= q <= 2 * cfg.p - 1 && x < cfg.p && m <= 2 * cfg.p - 3
    requires Moves(cfg, s, s', r, multiset{Sends(cfg.p, r, q)}, Consumes(cfg.p, r, q))
    requires Pos(s, r) == q - 1 && Pos(s', r) == q && s'.rounds[r] == s.rounds[r]
    requires LinkAt(cfg, s, x, m)
    ensures LinkAt(cfg, s', x, m)
  {
    SendsMessage(cfg.p, r, q, x, m);
    ConsumesMessage(cfg.p, r, q, m);
    Movement(cfg, s, s', r, multiset{Sends(cfg.p, r, q)}, Consumes(cfg.p, r, q), Into(cfg.p, x, m));
  }

  lemma AdvanceAck<T>(cfg: Config<T>, s: State<T>, s': State<T>, r: nat, q: nat, x: nat)
    requires Shape(cfg, s) && r < cfg.p && 1 <= q <= 2 * cfg.p - 1 && x < cfg.p
    requires Moves(cfg, s, s', r, multiset{Sends(cfg.p, r, q)}, Consumes(cfg.p, r, q))
    requires Pos(s, r) == q - 1 && Pos(s', r) == q && s'.rounds[r] == s.rounds[r]
    requires AckAt(cfg, s, x)
    ensures AckAt(cfg, s', x)
  {
    Movement(cfg, s, s', r, multiset{Sends(cfg.p, r, q)}, Consumes(cfg.p, r, q), AckFrom(cfg.p, x));
  }

  lemma AdvanceCounts<T>(cfg: Config<T>, s: State<T>, s': State<T>, r: nat, q: nat)
    requires Counts(cfg, s) && r < cfg.p && 1 <= q <= 2 * cfg.p - 1
    requires Moves(cfg, s, s', r, multiset{Sends(cfg.p, r, q)}, Consumes(cfg.p, r, q))
    requires Pos(s, r) == q - 1 && Pos(s', r) == q && s'.rounds[r] == s.rounds[r]
    ensures Counts(cfg, s')
  {
    forall x, m | 0 <= x < cfg.p && 0 <= m <= 2 * cfg.p - 3 ensures LinkAt(cfg, s', x, m) {
      assert LinkAt(cfg, s, x, m);
      AdvanceLink(cfg, s, s', r, q, x, m);
    }
    forall x | 0 <= x < cfg.p ensures AckAt(cfg, s', x) {
      assert AckAt(cfg, s, x);
      AdvanceAck(cfg, s, s', r, q, x);
    }
    SendsLegitimate(cfg.p, r, q);
  }

  lemma SendsLegitimate(p: nat, r: nat, q: nat)
    requires 2 <= p && r < p && 1 <= q <= 2 * p - 1
    ensures Legitimate(p, Sends(p, r, q))
  {
    if q <= 2 * p - 2 { NumberInto(p, Next(p, r), q - 1); }
  }

  lemma StartCounts<T>(cfg: Config<T>, s: State<T>, r: nat)
    requires Counts(cfg, s) && Enabled(cfg, s, DoStart(r))
    ensures Counts(cfg, Step(cfg, s, DoStart(r)))
  {
    StartShape(cfg, s, r);
    assert ReduceWrite(cfg.p, r, r) == Into(cfg.p, Next(cfg.p, r), 0);
    AdvanceCounts(cfg, s, Step(cfg, s, DoStart(r)), r, 1);
  }

  lemma FinishLink<T>(cfg: Config<T>, s: State<T>, s': State<T>, r: nat, x: nat, m: nat)
    requires Shape(cfg, s) && r < cfg.p && x < cfg.p && m <= 2 * cfg.p - 3
    requires Moves(cfg, s, s', r, multiset{}, {AckFrom(cfg.p, Next(cfg.p, r)).slot})
    requires Pos(s, r) == 2 * cfg.p - 1 && Pos(s', r) == 0 && s'.rounds[r] == s.rounds[r] + 1
    requires LinkAt(cfg, s, x, m)
    ensures LinkAt(cfg, s', x, m)
  {
    NumberInto(cfg.p, x, m);
    Movement(cfg, s, s', r, multiset{}, {AckFrom(cfg.p, Next(cfg.p, r)).slot}, Into(cfg.p, x, m));
  }

  lemma FinishAck<T>(cfg: Config<T>, s: State<T>, s': State<T>, r: nat, x: nat)
    requires Shape(cfg, s) && r < cfg.p && x < cfg.p
    requires Moves(cfg, s, s', r, multiset{}, {AckFrom(cfg.p, Next(cfg.p, r)).slot})
    requires Pos(s, r) == 2 * cfg.p - 1 && Pos(s', r) == 0 && s'.rounds[r] == s.rounds[r] + 1
    requires AckAt(cfg, s, x)
    ensures AckAt(cfg, s', x)
  {
    Movement(cfg, s, s', r, multiset{}, {AckFrom(cfg.p, Next(cfg.p, r)).slot}, AckFrom(cfg.p, x));
  }

  lemma FinishCounts<T>(cfg: Config<T>, s: State<T>, s': State<T>, r: nat)
    requires Counts(cfg, s) && r < cfg.p
    requires Moves(cfg, s, s', r, multiset{}, {AckFrom(cfg.p, Next(cfg.p, r)).slot})
    requires Pos(s, r) == 2 * cfg.p - 1 && Pos(s', r) == 0 && s'.rounds[r] == s.rounds[r] + 1
    ensures Counts(cfg, s')
  {
    forall x, m | 0 <= x < cfg.p && 0 <= m <= 2 * cfg.p - 3 ensures LinkAt(cfg, s', x, m) {
      assert LinkAt(cfg, s, x, m);
      FinishLink(cfg, s, s', r, x, m);
    }
    forall x | 0 <= x < cfg.p ensures AckAt(cfg, s', x) {
      assert AckAt(cfg, s, x);
      FinishAck(cfg, s, s', r, x);
    }
  }

  /** The notification a running rank polls. */
  ghost function Awaited(p: nat, r: nat, step: nat): Slot
    requires r < p && 2 <= p && step <= 2 * (p - 1)
  {
    if step == 2 * (p - 1) then AckFrom(p, Next(p, r)).slot else Into(p, r, step).slot
  }

  lemma AdvanceOutcome<T>(cfg: Config<T>, r: nat, ctl: Control, proc: Proc<T>)
    requires cfg.Valid() && ControlOk(cfg, r, ctl) && Allocated(cfg, proc) && ctl.phase.Running?
    requires ctl.step < 2 * (cfg.p - 1)
    ensures var o, p, q := Trigger(cfg, r, ctl, proc), cfg.p, ctl.step + 2;
            if Awaited(p, r, ctl.step) !in proc.notes then o == Outcome(ctl, proc, [], false)
            else
              && o.ctl == Control(Running, ctl.step + 1, Back(p, r, q)) && !o.done
              && o.proc.notes == proc.notes - Consumes(p, r, q) && Consumes(p, r, q) <= proc.notes
              && o.posts == [Sends(p, r, q)]
  {
    var p, n := cfg.p, Next(cfg.p, r);
    assert Back(p, n, ctl.step + 2) == ctl.index && Prev(p, n) == r;
  }

  lemma AdvanceMoves<T>(cfg: Config<T>, s: State<T>, r: nat, o: Outcome<T>, q: nat)
    requires Shape(cfg, s) && r < cfg.p && s.ctl[r].phase.Running? && s.ctl[r].step + 2 == q <= 2 * cfg.p - 1
    requires Shape(cfg, Apply(s, r, o))
    requires o.ctl.phase.Running? && o.ctl.step == s.ctl[r].step + 1 && !o.done && o.posts == [Sends(cfg.p, r, q)]
    requires o.proc.notes == s.net.procs[r].notes - Consumes(cfg.p, r, q)
    requires Consumes(cfg.p, r, q) <= s.net.procs[r].notes
    ensures Moves(cfg, s, Apply(s, r, o), r, multiset{Sends(cfg.p, r, q)}, Consumes(cfg.p, r, q))
  {}

  lemma NothingHappens<T>(s: State<T>, r: nat, o: Outcome<T>)
    requires r < |s.ctl| == |s.net.procs| == |s.rounds| && o == Outcome(s.ctl[r], s.net.procs[r], [], false)
    ensures Apply(s, r, o) == s
  {
    assert s.net.pending + multiset([]) == s.net.pending;
  }

  lemma FinishMoves<T>(cfg: Config<T>, s: State<T>, r: nat)
    requires Shape(cfg, s) && Enabled(cfg, s, DoTrigger(r)) && s.ctl[r].step == 2 * (cfg.p - 1)
    ensures var p, s' := cfg.p, Step(cfg, s, DoTrigger(r));
            var wait := AckFrom(p, Next(p, r)).slot;
            if wait !in s.net.procs[r].notes then s' == s
            else
              && Moves(cfg, s, s', r, multiset{}, {wait})
              && Pos(s', r) == 0 && s'.rounds[r] == s.rounds[r] + 1
  {
    TriggerShape(cfg, s, r);
    var p, n := cfg.p, Next(cfg.p, r);
    assert Next(p, Next(p, s.ctl[r].index)) == Back(p, n, 2 * p - 2);
    assert s.net.pending + multiset([]) == s.net.pending;
  }

  lemma AdvanceTriggerCounts<T>(cfg: Config<T>, s: State<T>, r: nat)
    requires Counts(cfg, s) && Enabled(cfg, s, DoTrigger(r)) && s.ctl[r].step < 2 * (cfg.p - 1)
    ensures Counts(cfg, Step(cfg, s, DoTrigger(r)))
  {
    var q, o := s.ctl[r].step + 2, Trigger(cfg, r, s.ctl[r], s.net.procs[r]);
    TriggerShape(cfg, s, r);
    AdvanceOutcome(cfg, r, s.ctl[r], s.net.procs[r]);
    if o.posts == [] {
      NothingHappens(s, r, o);
    } else {
      AdvanceMoves(cfg, s, r, o, q);
      AdvanceCounts(cfg, s, Apply(s, r, o), r, q);
    }
  }

  lemma TriggerCounts<T>(cfg: Config<T>, s: State<T>, r: nat)
    requires Counts(cfg, s) && Enabled(cfg, s, DoTrigger(r))
    ensures Counts(cfg, Step(cfg, s, DoTrigger(r)))
  {
    if s.ctl[r].step == 2 * (cfg.p - 1) {
      FinishMoves(cfg, s, r);
      if Step(cfg, s, DoTrigger(r)) != s { FinishCounts(cfg, s, Step(cfg, s, DoTrigger(r)), r); }
    } else {
      AdvanceTriggerCounts(cfg, s, r);
    }
  }

  // ----- delivery -----

  /** A notification is never raised while it is still raised. */
  lemma NotRaised<T>(cfg: Config<T>, s: State<T>, t: Msg)
    requires Counts(cfg, s) && t in s.net.pending
    ensures Legitimate(cfg.p, t)
    ensures t.slot !in s.net.procs[t.dst].notes && s.net.pending[t] == 1
  {
    assert Legitimate(cfg.p, t);
    if t.slot.Ack? {
      AtMostOnce(cfg, s, Next(cfg.p, t.dst), 0);
    } else {
      AtMostOnce(cfg, s, t.dst, Number(cfg.p, t.dst, t.slot));
    }
  }

  lemma DeliverMoves<T>(cfg: Config<T>, s: State<T>, t: Msg, u: Msg)
    requires Counts(cfg, s) && Deliverable(s.net, t) && u.dst < cfg.p && Legitimate(cfg.p, u)
    ensures InFlight(Step(cfg, s, DoDeliver(t)).net, u) == InFlight(s.net, u)
  {
    NotRaised(cfg, s, t);
    DeliverMovement(s.net, t, u);
  }

  lemma DeliverLink<T>(cfg: Config<T>, s: State<T>, t: Msg, x: nat, m: nat)
    requires Counts(cfg, s) && Deliverable(s.net, t) && Shape(cfg, Step(cfg, s, DoDeliver(t)))
    requires x < cfg.p && m <= 2 * cfg.p - 3
    ensures LinkAt(cfg, Step(cfg, s, DoDeliver(t)), x, m)
  {
    assert LinkAt(cfg, s, x, m);
    NumberInto(cfg.p, x, m);
    DeliverMoves(cfg, s, t, Into(cfg.p, x, m));
  }

  lemma DeliverAckAt<T>(cfg: Config<T>, s: State<T>, t: Msg, x: nat)
    requires Counts(cfg, s) && Deliverable(s.net, t) && Shape(cfg, Step(cfg, s, DoDeliver(t))) && x < cfg.p
    ensures AckAt(cfg, Step(cfg, s, DoDeliver(t)), x)
  {
    assert AckAt(cfg, s, x);
    DeliverMoves(cfg, s, t, AckFrom(cfg.p, x));
  }

  lemma DeliverCounts<T>(cfg: Config<T>, s: State<T>, t: Msg)
    requires Counts(cfg, s) && Deliverable(s.net, t)
    ensures Counts(cfg, Step(cfg, s, DoDeliver(t)))
  {
    var s' := Step(cfg, s, DoDeliver(t));
    DeliverShape(cfg, s, t);
    forall x, m | 0 <= x < cfg.p && 0 <= m <= 2 * cfg.p - 3 ensures LinkAt(cfg, s', x, m) {
      DeliverLink(cfg, s, t, x, m);
    }
    forall x | 0 <= x < cfg.p ensures AckAt(cfg, s', x) {
      DeliverAckAt(cfg, s, t, x);
    }
  }
}
