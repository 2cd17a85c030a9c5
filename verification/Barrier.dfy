/** The barrier object of one rank: neighbours computed in 16-bit rank arithmetic, and the loop of
    execute, each of whose steps is an action of the machine. */
module Barrier {
  import opened Bits
  import opened RingIndex
  import opened Transport
  import opened DisseminationBarrier
  import opened Waiting

  /** Ranks are unsigned 16-bit numbers. */
  const RANK_RANGE := 0x1_0000

  function AddRank(a: nat, b: int): (r: nat)
    ensures a < RANK_RANGE && 0 <= b < RANK_RANGE ==> r == if a + b < RANK_RANGE then a + b else a + b - RANK_RANGE
  {
    (a + b % RANK_RANGE) % RANK_RANGE
  }

  function SubtractRank(a: nat, b: int): (r: nat)
    ensures a < RANK_RANGE && 0 <= b < RANK_RANGE ==> r == if b <= a then a - b else a - b + RANK_RANGE
  {
    (a - b % RANK_RANGE) % RANK_RANGE
  }

  function TargetRank(rank: nat, numberRanks: nat, hop: nat): nat
    requires 0 < numberRanks
  {
    AddRank(rank, hop) % numberRanks
  }

  function SourceRank(rank: nat, numberRanks: nat, hop: nat): nat
    requires 0 < numberRanks
  {
    SubtractRank(AddRank(rank, numberRanks), hop) % numberRanks
  }

  lemma SmallGroupTarget(r: nat, p: nat, hop: nat)
    requires r < p <= 32768 && 1 <= hop < p
    ensures TargetRank(r, p, hop) == Forth(p, r, hop)
  {
    assert AddRank(r, hop) == r + hop;
    RemainderOnce(r + hop, p);
  }

  lemma SmallGroupSource(r: nat, p: nat, hop: nat)
    requires r < p <= 32768 && 1 <= hop < p
    ensures SourceRank(r, p, hop) == Back(p, r, hop)
  {
    assert SubtractRank(AddRank(r, p), hop) == r + p - hop;
    RemainderOnce(r + p - hop, p);
  }

  lemma LargeGroup(p: nat)
    requires 32768 < p < RANK_RANGE
    ensures SourceRank(p - 1, p, 1) != p - 2
  {
    assert SubtractRank(AddRank(p - 1, p), 1) == 2 * p - 2 - RANK_RANGE;
  }

  ghost predicate FormulasAgree(cfg: Config, r: nat, i: nat)
    requires cfg.Valid() && r < cfg.p && i < cfg.steps
  {
    && TargetRank(r, cfg.p, Pow2(i)) == Target(cfg, r, i)
    && SourceRank(r, cfg.p, Pow2(i)) == Source(cfg, r, i)
  }

  /** The 16-bit formulas are right for every rank and step exactly in groups of up to 32768 ranks. */
  lemma RankRange(cfg: Config)
    requires cfg.Valid() && 2 <= cfg.p < RANK_RANGE
    ensures (forall r, i :: 0 <= r < cfg.p && 0 <= i < cfg.steps ==> FormulasAgree(cfg, r, i)) <==> cfg.p <= 32768
  {
    if cfg.p <= 32768 {
      forall r, i | 0 <= r < cfg.p && 0 <= i < cfg.steps ensures FormulasAgree(cfg, r, i) {
        HopBound(cfg, i);
        SmallGroupTarget(r, cfg.p, Pow2(i));
        SmallGroupSource(r, cfg.p, Pow2(i));
      }
    } else {
      LargeGroup(cfg.p);
      assert !FormulasAgree(cfg, cfg.p - 1, 0);
    }
  }

  /** The transfers of step `i`, and of the first `n` steps of an execute. */
  ghost function StepPosts(cfg: Config, r: nat, i: nat): seq<Msg>
    requires cfg.Valid() && r < cfg.p && i < cfg.steps
  {
    [Notify(Target(cfg, r, i), Dat(i)), Notify(Source(cfg, r, i), Ack(i))]
  }

  ghost function Posts(cfg: Config, r: nat, n: nat): seq<Msg>
    requires cfg.Valid() && r < cfg.p && n <= cfg.steps
  {
    if n == 0 then [] else Posts(cfg, r, n - 1) + StepPosts(cfg, r, n - 1)
  }

  /** What a rank inside execute has posted since it entered. */
  ghost function Posted(cfg: Config, r: nat, ctl: Control): seq<Msg>
    requires cfg.Valid() && r < cfg.p && ControlOk(cfg, ctl)
  {
    Posts(cfg, r, ctl.step)
    + match ctl.phase
      case InitTransfer => []
      case WaitData => StepPosts(cfg, r, ctl.step)[..1]
      case AckData => StepPosts(cfg, r, ctl.step)[..1]
      case WaitAck => StepPosts(cfg, r, ctl.step)
  }

  lemma PostsOfNext(cfg: Config, r: nat, i: nat)
    requires cfg.Valid() && r < cfg.p && i < cfg.steps
    ensures var done, step := Posts(cfg, r, i), StepPosts(cfg, r, i);
            && done + [] == done && step[..1] == [step[0]] && done + step == done + step[..1] + [step[1]]
            && Posts(cfg, r, i + 1) == done + step && done + step + [] == done + step
  {}

  /** Every action of a rank inside execute adds to what it has posted exactly the posts of the action. */
  lemma PostedGrows(cfg: Config, r: nat, ctl: Control, notes: set<Slot>)
    requires cfg.Valid() && r < cfg.p && ControlOk(cfg, ctl) && ctl.inside
    ensures var o := Advance(cfg, r, ctl, notes);
            && ControlOk(cfg, o.ctl)
            && if o.ctl.inside then Posted(cfg, r, o.ctl) == Posted(cfg, r, ctl) + o.posts
               else o.posts == [] && Posted(cfg, r, ctl) == Posts(cfg, r, cfg.steps)
  {
    var done := Posts(cfg, r, ctl.step);
    assert done + [] == done && Posted(cfg, r, ctl) + [] == Posted(cfg, r, ctl);
    if ctl.step < cfg.steps { PostsOfNext(cfg, r, ctl.step); }
  }

  /** On entering execute nothing has been posted. */
  lemma NothingPosted(cfg: Config, r: nat, ctl: Control)
    requires cfg.Valid() && r < cfg.p && ControlOk(cfg, ctl) && !ctl.inside
    ensures ControlOk(cfg, Enter(ctl)) && Posted(cfg, r, Enter(ctl)) == []
  {}

  lemma {:induction false} PostsOfStep(cfg: Config, r: nat, n: nat, i: nat)
    requires cfg.Valid() && r < cfg.p && i < n <= cfg.steps
    ensures |Posts(cfg, r, n)| == 2 * n
    ensures Posts(cfg, r, n)[2 * i] == Notify(Target(cfg, r, i), Dat(i))
    ensures Posts(cfg, r, n)[2 * i + 1] == Notify(Source(cfg, r, i), Ack(i))
  {
    if i < n - 1 {
      PostsOfStep(cfg, r, n - 1, i);
    } else {
      if 0 < i { PostsOfStep(cfg, r, n - 1, 0); }
    }
  }

  /** Message 2i is the signal of step i, message 2i + 1 its ack. */
  ghost predicate InOrder(cfg: Config, r: nat, sent: seq<Msg>)
    requires cfg.Valid() && r < cfg.p && |sent| <= 2 * cfg.steps
  {
    forall m :: 0 <= m < |sent| ==>
                  sent[m] == if m % 2 == 0 then Notify(Target(cfg, r, m / 2), Dat(m / 2))
                             else Notify(Source(cfg, r, m / 2), Ack(m / 2))
  }

  /** What an execute posts. */
  lemma PostsAre(cfg: Config, r: nat, n: nat)
    requires cfg.Valid() && r < cfg.p && n <= cfg.steps
    ensures |Posts(cfg, r, n)| == 2 * n && InOrder(cfg, r, Posts(cfg, r, n))
  {
    if 0 < n { PostsOfStep(cfg, r, n, 0); }
    forall m | 0 <= m < 2 * n
      ensures Posts(cfg, r, n)[m] == if m % 2 == 0 then Notify(Target(cfg, r, m / 2), Dat(m / 2))
                                     else Notify(Source(cfg, r, m / 2), Ack(m / 2))
    {
      PostsOfStep(cfg, r, n, m / 2);
    }
  }

  /** The same for a rank that waits in its current step. */
  lemma PostedAre(cfg: Config, r: nat, ctl: Control)
    requires cfg.Valid() && r < cfg.p && ControlOk(cfg, ctl) && (ctl.phase.WaitData? || ctl.phase.WaitAck?)
    requires ctl.step < cfg.steps
    ensures |Posted(cfg, r, ctl)| == 2 * ctl.step + if ctl.phase.WaitData? then 1 else 2
    ensures InOrder(cfg, r, Posted(cfg, r, ctl))
  {
    PostsAre(cfg, r, ctl.step + 1);
    var all := Posts(cfg, r, ctl.step + 1);
    assert ctl.phase.WaitAck? ==> Posted(cfg, r, ctl) == all;
    assert ctl.phase.WaitData? ==> Posted(cfg, r, ctl) == all[..2 * ctl.step + 1];
  }

  /** The ack of a step has been waited for and reset; `notes` are those still raised. */
  lemma AckTaken(cfg: Config, r: nat, ctl: Control, notes: set<Slot>)
    requires cfg.Valid() && r < cfg.p && ControlOk(cfg, ctl) && ctl.inside && ctl.phase.WaitAck?
    requires Ack(ctl.step) !in notes
    ensures Advance(cfg, r, ctl, notes + {Ack(ctl.step)})
            == Outcome(ctl.(step := ctl.step + 1, phase := InitTransfer), notes, [])
  {
    assert notes + {Ack(ctl.step)} - {Ack(ctl.step)} == notes;
  }

  ghost predicate Connected(p: nat, r: nat, targets: seq<nat>, sources: seq<nat>)
    requires r < p
  {
    && |sources| == |targets|
    && forall i :: 0 <= i < |targets| ==>
                     && Pow2(i) < p && targets[i] == Forth(p, r, Pow2(i)) && sources[i] == Back(p, r, Pow2(i))
  }

  lemma ConnectedNext(p: nat, r: nat, targets: seq<nat>, sources: seq<nat>, target: nat, source: nat)
    requires r < p && Connected(p, r, targets, sources) && Pow2(|targets|) < p
    requires target == Forth(p, r, Pow2(|targets|)) && source == Back(p, r, Pow2(|targets|))
    ensures Connected(p, r, targets + [target], sources + [source])
  {}

  // ----- the waits of one execute -----

  /** The notifications that execute waits for, in order. */
  function Waits(steps: nat): seq<Slot> {
    seq(2 * steps, (k: nat) => if k % 2 == 0 then Dat(k / 2) else Ack(k / 2))
  }

  lemma WaitsAre(steps: nat, i: nat)
    requires i < steps
    ensures |Waits(steps)| == 2 * steps && Waits(steps)[2 * i] == Dat(i) && Waits(steps)[2 * i + 1] == Ack(i)
  {}

  /** A call of execute returns if and only if both notifications of every step come. */
  lemma ExecuteReturns(steps: nat, notes: set<Slot>, arrivals: seq<Slot>)
    ensures AfterWaits(Waits(steps), notes, arrivals).raised <==>
            forall i :: 0 <= i < steps ==> Coming(Dat(i), notes, arrivals) && Coming(Ack(i), notes, arrivals)
  {
    AllCome(Waits(steps), notes, arrivals);
    forall i | 0 <= i < steps ensures Dat(i) in Waits(steps) && Ack(i) in Waits(steps) {
      WaitsAre(steps, i);
    }
    forall x | x in Waits(steps) ensures exists i :: 0 <= i < steps && (x == Dat(i) || x == Ack(i)) {
      var k :| 0 <= k < 2 * steps && x == Waits(steps)[k];
      assert 0 <= k / 2 < steps;
    }
  }

  /** The waits from step `i` on begin with the two of step `i`. */
  lemma WaitsOfStep(steps: nat, i: nat, notes: set<Slot>, arrivals: seq<Slot>)
    requires i < steps
    ensures var w := AfterWaits([Dat(i), Ack(i)], notes, arrivals);
            AfterWaits(Waits(steps)[2 * i..], notes, arrivals)
            == if w.raised then AfterWaits(Waits(steps)[2 * (i + 1)..], w.notes, w.rest) else w
  {
    var rest := Waits(steps)[2 * i..];
    assert rest[0] == Dat(i) && rest[1..][0] == Ack(i) && rest[1..][1..] == Waits(steps)[2 * (i + 1)..];
    TwoWaits(Dat(i), Ack(i), notes, arrivals);
  }

  lemma SentBehind(before: seq<Msg>, sent: seq<Msg>)
    ensures before <= before + sent && (before + sent)[|before|..] == sent
  {}

  /** The two waits of step `i`, in terms of what comes. */
  lemma StepWaits(i: nat, notes: set<Slot>, arrivals: seq<Slot>)
    ensures var w := AfterWaits([Dat(i), Ack(i)], notes, arrivals);
            && (w.raised <==> Coming(Dat(i), notes, arrivals) && Coming(Ack(i), notes, arrivals))
            && forall x :: x != Dat(i) && x != Ack(i) ==> (Coming(x, w.notes, w.rest) <==> Coming(x, notes, arrivals))
  {
    var slots := [Dat(i), Ack(i)];
    AllCome(slots, notes, arrivals);
    assert slots[0] == Dat(i) && slots[1] == Ack(i);
  }

  /** The signals of the steps before `i` have come; none of a later step has been lost. */
  ghost predicate Kept(i: nat, notes0: set<Slot>, arrivals0: seq<Slot>, notes: set<Slot>, rest: seq<Slot>) {
    && (forall j :: 0 <= j < i ==> Coming(Dat(j), notes0, arrivals0) && Coming(Ack(j), notes0, arrivals0))
    && (forall j :: i <= j ==> (Coming(Dat(j), notes, rest) <==> Coming(Dat(j), notes0, arrivals0)))
    && forall j :: i <= j ==> (Coming(Ack(j), notes, rest) <==> Coming(Ack(j), notes0, arrivals0))
  }

  lemma KeptNext(i: nat, notes0: set<Slot>, arrivals0: seq<Slot>, notes: set<Slot>, rest: seq<Slot>)
    requires Kept(i, notes0, arrivals0, notes, rest) && AfterWaits([Dat(i), Ack(i)], notes, rest).raised
    ensures var w := AfterWaits([Dat(i), Ack(i)], notes, rest); Kept(i + 1, notes0, arrivals0, w.notes, w.rest)
  {
    StepWaits(i, notes, rest);
  }

  class Barrier {
    const numberRanks: nat
    const rank: nat
    const numberSteps: nat
    /** The remote partners of the source and target buffers. */
    const targets: seq<nat>
    const sources: seq<nat>
    /** Raised notifications of this rank, and the transfers it has posted. */
    var notes: set<Slot>
    var posted: seq<Msg>
    ghost var ctl: Control

    ghost predicate Valid() {
      && rank < numberRanks
      && numberSteps == CeilLog2(numberRanks)
      && |targets| == |sources| == numberSteps
      && (numberRanks <= 32768 ==> Connected(numberRanks, rank, targets, sources))
    }

    ghost predicate Models(cfg: Config) {
      cfg.Valid() && Valid() && cfg.p == numberRanks <= 32768
    }

    /** The partners at distance `hop`. */
    static method PartnersAt(numberRanks: nat, rank: nat, hop: nat) returns (target: nat, source: nat)
      requires rank < numberRanks && 1 <= hop < numberRanks
      ensures numberRanks <= 32768 ==> target == Forth(numberRanks, rank, hop) && source == Back(numberRanks, rank, hop)
    {
      target, source := TargetRank(rank, numberRanks, hop), SourceRank(rank, numberRanks, hop);
      if numberRanks <= 32768 {
        SmallGroupTarget(rank, numberRanks, hop);
        SmallGroupSource(rank, numberRanks, hop);
      }
    }

    /** The partners of each step; Connected up to 32768 ranks. */
    static method Partners(numberRanks: nat, rank: nat, steps: nat) returns (targets: seq<nat>, sources: seq<nat>)
      requires rank < numberRanks && steps == CeilLog2(numberRanks)
      ensures |targets| == |sources| == steps
      ensures numberRanks <= 32768 ==> Connected(numberRanks, rank, targets, sources)
    {
      targets, sources := [], [];
      for i := 0 to steps
        invariant |targets| == |sources| == i
        invariant numberRanks <= 32768 ==> Connected(numberRanks, rank, targets, sources)
      {
        HopBound(Config(numberRanks, steps), i);
        var target, source := PartnersAt(numberRanks, rank, Pow2(i));
        if numberRanks <= 32768 { ConnectedNext(numberRanks, rank, targets, sources, target, source); }
        targets, sources := targets + [target], sources + [source];
      }
    }

    constructor (numberRanks: nat, rank: nat)
      requires rank < numberRanks
      ensures Valid() && this.numberRanks == numberRanks && this.rank == rank
      ensures notes == {} && posted == [] && ctl == Control(0, false, 0, InitTransfer)
    {
      var steps := CeilLog2(numberRanks);
      var targets, sources := Partners(numberRanks, rank, steps);
      this.numberRanks, this.rank, this.numberSteps := numberRanks, rank, steps;
      this.targets, this.sources := targets, sources;
      this.notes, this.posted, this.ctl := {}, [], Control(0, false, 0, InitTransfer);
    }

    /** source_buffers[i]->initTransfer() */
    method StartTransfer(i: nat, ghost before: seq<Msg>, ghost cfg: Config)
      requires Models(cfg) && i < numberSteps && ControlOk(cfg, ctl)
      requires ctl.inside && ctl.step == i && ctl.phase.InitTransfer? && posted == before + Posted(cfg, rank, ctl)
      modifies this`posted, this`ctl
      ensures ctl == old(ctl).(phase := WaitData) && posted == before + Posted(cfg, rank, ctl)
      ensures posted == old(posted) + [Notify(Target(cfg, rank, i), Dat(i))]
      ensures Advance(cfg, rank, old(ctl), notes) == Outcome(ctl, notes, posted[|old(posted)|..])
    {
      PostedGrows(cfg, rank, ctl, notes);
      posted := posted + [Notify(targets[i], Dat(i))];
      ctl := ctl.(phase := WaitData);
    }

    /** target_buffers[i]->ackTransfer() */
    method AckTransfer(i: nat, ghost before: seq<Msg>, ghost cfg: Config)
      requires Models(cfg) && i < numberSteps && ControlOk(cfg, ctl)
      requires ctl.inside && ctl.step == i && ctl.phase.AckData? && posted == before + Posted(cfg, rank, ctl)
      modifies this`posted, this`ctl
      ensures ctl == old(ctl).(phase := WaitAck) && posted == before + Posted(cfg, rank, ctl)
      ensures posted == old(posted) + [Notify(Source(cfg, rank, i), Ack(i))]
      ensures Advance(cfg, rank, old(ctl), notes) == Outcome(ctl, notes, posted[|old(posted)|..])
    {
      PostedGrows(cfg, rank, ctl, notes);
      posted := posted + [Notify(sources[i], Ack(i))];
      ctl := ctl.(phase := WaitAck);
    }

    /** Polls a notification until it is raised, and resets it.  `arrivals` are the notifications
        that the transport raises between two polls; polling stops when they run out. */
    method WaitFor(slot: Slot, arrivals: seq<Slot>) returns (raised: bool, rest: seq<Slot>)
      modifies this`notes
      ensures Waited(raised, notes, rest) == AfterWait(slot, old(notes), arrivals)
      ensures raised <==> slot in old(notes) || slot in arrivals
      ensures slot !in notes && (!raised ==> rest == [])
    {
      WaitOutcome(slot, notes, arrivals);
      rest := arrivals;
      raised := slot in notes;
      while !raised && rest != []
        invariant raised <==> slot in notes
        invariant AfterWait(slot, notes, rest) == AfterWait(slot, old(notes), arrivals)
        decreases |rest|
      {
        notes := notes + {rest[0]};
        rest := rest[1..];
        raised := slot in notes;
      }
      notes := notes - {slot};
    }

    /** target_buffers[i]->waitForCompletion() */
    method WaitForCompletion(i: nat, arrivals: seq<Slot>, ghost before: seq<Msg>, ghost cfg: Config)
      returns (raised: bool, rest: seq<Slot>)
      requires Models(cfg) && i < numberSteps && ControlOk(cfg, ctl)
      requires ctl.inside && ctl.step == i && ctl.phase.WaitData? && posted == before + Posted(cfg, rank, ctl)
      modifies this`notes, this`ctl
      ensures if raised then Advance(cfg, rank, old(ctl), notes + {Dat(i)}) == Outcome(ctl, notes, [])
              else ctl == old(ctl) && Dat(i) !in notes
      ensures Waited(raised, notes, rest) == AfterWait(Dat(i), old(notes), arrivals)
      ensures (raised <==> Coming(Dat(i), old(notes), arrivals)) && (!raised ==> rest == [])
      ensures raised ==> ctl == old(ctl).(phase := AckData) && posted == before + Posted(cfg, rank, ctl)
    {
      PostedGrows(cfg, rank, ctl, notes + {Dat(i)});
      raised, rest := WaitFor(Dat(i), arrivals);
      if raised {
        assert notes + {Dat(i)} - {Dat(i)} == notes;
        ctl := ctl.(phase := AckData);
      }
    }

    /** source_buffers[i]->waitForTransferAck() */
    method WaitForTransferAck(i: nat, arrivals: seq<Slot>, ghost before: seq<Msg>, ghost cfg: Config)
      returns (raised: bool, rest: seq<Slot>)
      requires Models(cfg) && i < numberSteps && ControlOk(cfg, ctl)
      requires ctl.inside && ctl.step == i && ctl.phase.WaitAck? && posted == before + Posted(cfg, rank, ctl)
      modifies this`notes, this`ctl
      ensures if raised then Advance(cfg, rank, old(ctl), notes + {Ack(i)}) == Outcome(ctl, notes, [])
              else ctl == old(ctl) && Ack(i) !in notes
      ensures Waited(raised, notes, rest) == AfterWait(Ack(i), old(notes), arrivals)
      ensures !raised ==> rest == []
      ensures raised ==>
                && ctl == old(ctl).(step := i + 1, phase := InitTransfer)
                && posted == before + Posted(cfg, rank, ctl)
    {
      PostedGrows(cfg, rank, ctl, {Ack(i)});
      raised, rest := WaitFor(Ack(i), arrivals);
      if raised {
        AckTaken(cfg, rank, ctl, notes);
        ctl := ctl.(step := i + 1, phase := InitTransfer);
      }
    }

    /** The return from execute. */
    ghost method Leave(cfg: Config)
      requires Models(cfg) && ctl == Control(ctl.episodes, true, numberSteps, InitTransfer)
      modifies this`ctl
      ensures ctl == Control(old(ctl.episodes) + 1, false, 0, InitTransfer)
      ensures Advance(cfg, rank, old(ctl), notes) == Outcome(ctl, notes, [])
    {
      ctl := Control(ctl.episodes + 1, false, 0, InitTransfer);
    }

    /** Step `i` of execute; `before` is what had been posted when it was entered. */
    method ExecuteStep(i: nat, arrivals: seq<Slot>, ghost before: seq<Msg>, ghost cfg: Config)
      returns (completed: bool, rest: seq<Slot>)
      requires Models(cfg) && i < numberSteps && ctl == Control(ctl.episodes, true, i, InitTransfer)
      requires posted == before + Posted(cfg, rank, ctl)
      modifies this`notes, this`posted, this`ctl
      ensures ControlOk(cfg, ctl) && posted == before + Posted(cfg, rank, ctl)
      ensures Waited(completed, notes, rest) == AfterWaits([Dat(i), Ack(i)], old(notes), arrivals)
      ensures if completed then ctl == old(ctl).(step := i + 1)
              else
                && ctl.step == i && ctl.inside && ctl.episodes == old(ctl.episodes) && rest == []
                && if Coming(Dat(i), old(notes), arrivals) then
                     ctl.phase.WaitAck? && Ack(i) !in notes && !Coming(Ack(i), old(notes), arrivals)
                   else ctl.phase.WaitData? && Dat(i) !in notes
    {
      StepWaits(i, notes, arrivals);
      completed := false;
      TwoWaits(Dat(i), Ack(i), notes, arrivals);
      StartTransfer(i, before, cfg);
      var raised;
      raised, rest := WaitForCompletion(i, arrivals, before, cfg);
      if raised {
        AckTransfer(i, before, cfg);
        completed, rest := WaitForTransferAck(i, rest, before, cfg);
      }
    }

    /** Execute, entered when `before` had been posted, has come to step `i`; `all` is the outcome of
        all its waits. */
    ghost predicate Executing(i: nat, rest: seq<Slot>, before: seq<Msg>, episodes: nat, all: Waited<Slot>,
                              notes0: set<Slot>, arrivals0: seq<Slot>, cfg: Config)
      reads this
    {
      && Kept(i, notes0, arrivals0, notes, rest)
      && Models(cfg) && i <= numberSteps && ctl == Control(episodes, true, i, InitTransfer)
      && posted == before + Posted(cfg, rank, ctl)
      && AfterWaits(Waits(numberSteps)[2 * i..], notes, rest) == all
    }

    lemma Entered(arrivals: seq<Slot>, cfg: Config) returns (all: Waited<Slot>)
      requires Models(cfg) && ctl == Control(ctl.episodes, true, 0, InitTransfer)
      ensures all == AfterWaits(Waits(numberSteps), notes, arrivals)
      ensures Executing(0, arrivals, posted, ctl.episodes, all, notes, arrivals, cfg)
    {
      all := AfterWaits(Waits(numberSteps), notes, arrivals);
      assert Waits(numberSteps)[2 * 0..] == Waits(numberSteps);
      assert posted + [] == posted;
    }

    lemma Finished(rest: seq<Slot>, before: seq<Msg>, episodes: nat, all: Waited<Slot>, notes0: set<Slot>,
                   arrivals0: seq<Slot>, cfg: Config)
      requires Executing(numberSteps, rest, before, episodes, all, notes0, arrivals0, cfg)
      ensures all == Waited(true, notes, rest) && HasSent(before, 2 * numberSteps, cfg)
      ensures ctl == Control(episodes, true, numberSteps, InitTransfer)
      ensures forall j :: 0 <= j < numberSteps ==>
                            Coming(Dat(j), notes0, arrivals0) && Coming(Ack(j), notes0, arrivals0)
    {
      PostsAre(cfg, rank, numberSteps);
      SentBehind(before, Posts(cfg, rank, numberSteps));
      assert Waits(numberSteps)[2 * numberSteps..] == [];
      assert Posts(cfg, rank, numberSteps) + [] == Posts(cfg, rank, numberSteps);
    }

    /** The body of the loop of execute. */
    method ExecuteNext(i: nat, arrivals: seq<Slot>, ghost before: seq<Msg>, ghost episodes: nat,
                       ghost all: Waited<Slot>, ghost notes0: set<Slot>, ghost arrivals0: seq<Slot>, ghost cfg: Config)
      returns (completed: bool, rest: seq<Slot>)
      requires i < numberSteps && Executing(i, arrivals, before, episodes, all, notes0, arrivals0, cfg)
      modifies this`notes, this`posted, this`ctl
      ensures completed ==> Executing(i + 1, rest, before, episodes, all, notes0, arrivals0, cfg)
      ensures !completed ==>
                && ControlOk(cfg, ctl) && ctl.inside && ctl.episodes == episodes && ctl.step == i
                && HasSent(before, 2 * i + (if ctl.phase.WaitData? then 1 else 2), cfg)
                && Waited(false, notes, rest) == all && rest == [] && WaitsIn(i, notes0, arrivals0)
    {
      WaitsOfStep(numberSteps, i, notes, arrivals);
      if AfterWaits([Dat(i), Ack(i)], notes, arrivals).raised { KeptNext(i, notes0, arrivals0, notes, arrivals); }
      completed, rest := ExecuteStep(i, arrivals, before, cfg);
      if !completed {
        PostedAre(cfg, rank, ctl);
        SentBehind(before, Posted(cfg, rank, ctl));
      }
    }

    /** The `n` messages posted behind `before` are those of an execute, in order. */
    ghost predicate HasSent(before: seq<Msg>, n: nat, cfg: Config)
      reads this`posted
      requires Models(cfg)
    {
      && before <= posted && |posted| == |before| + n <= |before| + 2 * cfg.steps
      && InOrder(cfg, rank, posted[|before|..])
    }

    /** It is stuck in step `i`, at the first of its waits that does not end. */
    ghost predicate WaitsIn(i: nat, notes0: set<Slot>, arrivals0: seq<Slot>)
      reads this
    {
      && (forall j :: 0 <= j < i ==> Coming(Dat(j), notes0, arrivals0) && Coming(Ack(j), notes0, arrivals0))
      && if Coming(Dat(i), notes0, arrivals0) then
           ctl.phase.WaitAck? && Ack(i) !in notes && !Coming(Ack(i), notes0, arrivals0)
         else ctl.phase.WaitData? && Dat(i) !in notes
    }

    /** The loop of execute. */
    method Loop(arrivals: seq<Slot>, ghost before: seq<Msg>, ghost episodes: nat, ghost all: Waited<Slot>,
                ghost notes0: set<Slot>, ghost cfg: Config)
      returns (completed: bool, rest: seq<Slot>)
      requires Executing(0, arrivals, before, episodes, all, notes0, arrivals, cfg)
      modifies this`notes, this`posted, this`ctl
      ensures completed ==> Executing(numberSteps, rest, before, episodes, all, notes0, arrivals, cfg)
      ensures !completed ==>
                && ControlOk(cfg, ctl) && ctl.inside && ctl.episodes == episodes && ctl.step < numberSteps
                && HasSent(before, 2 * ctl.step + (if ctl.phase.WaitData? then 1 else 2), cfg)
                && Waited(false, notes, rest) == all && rest == [] && WaitsIn(ctl.step, notes0, arrivals)
    {
      rest := arrivals;
      for i := 0 to numberSteps
        invariant Executing(i, rest, before, episodes, all, notes0, arrivals, cfg)
      {
        completed, rest := ExecuteNext(i, rest, before, episodes, all, notes0, arrivals, cfg);
        if !completed { return; }
      }
      completed := true;
    }

    /** All steps of execute. */
    method Steps(arrivals: seq<Slot>, ghost before: seq<Msg>, ghost all: Waited<Slot>, ghost cfg: Config)
      returns (completed: bool, rest: seq<Slot>)
      requires Executing(0, arrivals, before, ctl.episodes, all, notes, arrivals, cfg)
      modifies this`notes, this`posted, this`ctl
      ensures Waited(completed, notes, rest) == all && ctl.inside && ctl.episodes == old(ctl.episodes)
      ensures completed ==>
                && ctl == Control(ctl.episodes, true, numberSteps, InitTransfer)
                && HasSent(before, 2 * numberSteps, cfg)
                && forall j :: 0 <= j < numberSteps ==>
                                 Coming(Dat(j), old(notes), arrivals) && Coming(Ack(j), old(notes), arrivals)
      ensures !completed ==>
                && ControlOk(cfg, ctl) && ctl.step < numberSteps && rest == []
                && HasSent(before, 2 * ctl.step + (if ctl.phase.WaitData? then 1 else 2), cfg)
                && WaitsIn(ctl.step, old(notes), arrivals)
    {
      ghost var notes0, episodes := notes, ctl.episodes;
      completed, rest := Loop(arrivals, before, episodes, all, notes0, cfg);
      if completed { Finished(rest, before, episodes, all, notes0, arrivals, cfg); }
    }

    /** One call of execute.  It returns if and only if the data and the ack of every step are raised
        or will be, after sending the signal of every step to the rank 2^i ahead and its ack to the rank
        2^i behind, in order; otherwise it is left at the first wait that does not end, with nothing
        posted beyond it.  No notification is lost. */
    method Execute(arrivals: seq<Slot>, ghost cfg: Config) returns (returned: bool, rest: seq<Slot>)
      requires Models(cfg) && ControlOk(cfg, ctl) && !ctl.inside
      modifies this`notes, this`posted, this`ctl
      ensures ControlOk(cfg, ctl)
      ensures Waited(returned, notes, rest) == AfterWaits(Waits(numberSteps), old(notes), arrivals)
      ensures returned <==> forall i :: 0 <= i < numberSteps ==>
                                          && (Dat(i) in old(notes) || Dat(i) in arrivals)
                                          && (Ack(i) in old(notes) || Ack(i) in arrivals)
      ensures returned ==> ctl == Control(old(ctl.episodes) + 1, false, 0, InitTransfer)
      ensures !returned ==>
                && ctl.inside && ctl.episodes == old(ctl.episodes) && ctl.step < numberSteps && rest == []
                && (forall j :: 0 <= j < ctl.step ==>
                                  && (Dat(j) in old(notes) || Dat(j) in arrivals)
                                  && (Ack(j) in old(notes) || Ack(j) in arrivals))
                && if Dat(ctl.step) in old(notes) || Dat(ctl.step) in arrivals then
                     && ctl.phase.WaitAck? && Ack(ctl.step) !in notes
                     && Ack(ctl.step) !in old(notes) && Ack(ctl.step) !in arrivals
                   else ctl.phase.WaitData? && Dat(ctl.step) !in notes
      ensures old(posted) <= posted
      ensures var sent := posted[|old(posted)|..];
              && |sent| == (if returned then 2 * numberSteps else 2 * ctl.step + if ctl.phase.WaitData? then 1 else 2)
              && forall m :: 0 <= m < |sent| ==>
                               sent[m] == if m % 2 == 0 then Notify(Target(cfg, rank, m / 2), Dat(m / 2))
                                          else Notify(Source(cfg, rank, m / 2), Ack(m / 2))
    {
      ghost var before := posted;
      ctl := Enter(ctl);
      ghost var all := Entered(arrivals, cfg);
      returned, rest := Steps(arrivals, before, all, cfg);
      if returned { Leave(cfg); }
    }
  }
}
