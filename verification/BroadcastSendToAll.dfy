/** The send-to-all broadcast object of one rank. */
module BroadcastSendToAll {
  import opened Buffers
  import opened RingIndex
  import opened Transport
  import opened SendToAllBroadcast

  /** The outcome of `n` polls of the root in a row. */
  ghost function Polls<T>(cfg: Config<T>, ctl: Control, proc: Proc<T>, n: nat): Outcome<T>
    requires cfg.Valid() && ControlOk(cfg, ctl) && ctl.started
    ensures ControlOk(cfg, Polls(cfg, ctl, proc, n).ctl) && Polls(cfg, ctl, proc, n).ctl.started
  {
    if n == 0 then Outcome(ctl, proc, [])
    else
      var o := Polls(cfg, ctl, proc, n - 1);
      Poll(cfg, cfg.root, o.ctl, o.proc)
  }

  /** The state after `o` at the root. */
  ghost function After<T>(cfg: Config<T>, s: State<T>, o: Outcome<T>): State<T>
    requires Shape(cfg, s)
  {
    State(Act(s.net, cfg.root, o.proc, []), s.ctl[cfg.root := o.ctl])
  }

  lemma PollIsStep<T>(cfg: Config<T>, s: State<T>)
    requires Shape(cfg, s) && Enabled(cfg, s, DoPoll(cfg.root))
    ensures Step(cfg, s, DoPoll(cfg.root)) == After(cfg, s, Poll(cfg, cfg.root, s.ctl[cfg.root], s.net.procs[cfg.root]))
  {}

  lemma AfterTwice<T>(cfg: Config<T>, s: State<T>, s': State<T>, o: Outcome<T>, o': Outcome<T>)
    requires Shape(cfg, s) && Shape(cfg, s') && s' == After(cfg, s, o)
    ensures s'.ctl[cfg.root] == o.ctl && s'.net.procs[cfg.root] == o.proc && After(cfg, s', o') == After(cfg, s, o')
  {
    assert s.net.pending + multiset([]) == s.net.pending;
  }

  lemma NoPoll<T>(cfg: Config<T>, s: State<T>)
    requires Shape(cfg, s)
    ensures After(cfg, s, Outcome(s.ctl[cfg.root], s.net.procs[cfg.root], [])) == s
  {
    assert s.net.pending + multiset([]) == s.net.pending;
  }

  /** One more poll, in the state after `o`. */
  lemma OneMorePoll<T>(cfg: Config<T>, s: State<T>, o: Outcome<T>, last: State<T>)
    requires Shape(cfg, s) && Shape(cfg, last) && last == After(cfg, s, o) && Enabled(cfg, last, DoPoll(cfg.root))
    ensures ControlOk(cfg, o.ctl)
    ensures Step(cfg, last, DoPoll(cfg.root)) == After(cfg, s, Poll(cfg, cfg.root, o.ctl, o.proc))
  {
    PollIsStep(cfg, last);
    AfterTwice(cfg, s, last, o, Poll(cfg, cfg.root, o.ctl, o.proc));
  }

  /** In every state that a run can be in, `n` polls of the root's object are `n` polls of the machine's
      root, as long as none but the last of them finishes it. */
  lemma {:induction false} PollsAreRootPolls<T>(cfg: Config<T>, s: State<T>, n: nat)
    requires Inv(cfg, s) && s.ctl[cfg.root].started
    requires forall m :: 0 <= m < n ==> !Polls(cfg, s.ctl[cfg.root], s.net.procs[cfg.root], m).ctl.done
    ensures var o := Polls(cfg, s.ctl[cfg.root], s.net.procs[cfg.root], n);
            RootPolls(cfg, s, n) == State(Act(s.net, cfg.root, o.proc, []), s.ctl[cfg.root := o.ctl])
    decreases n
  {
    if n == 0 {
      NoPoll(cfg, s);
    } else {
      PollsAreRootPolls(cfg, s, n - 1);
      var o := Polls(cfg, s.ctl[cfg.root], s.net.procs[cfg.root], n - 1);
      assert !o.ctl.done;
      LastRootPoll(cfg, s, n);
      OneMorePoll(cfg, s, o, RootPolls(cfg, s, n - 1));
    }
  }

  /** The endpoints below `n` whose ack is raised. */
  function Acked(notes: set<Slot>, n: nat): set<nat> {
    set i | 0 <= i < n && Ack(i) in notes
  }

  function AckSlots(n: nat): set<Slot> {
    set i | 0 <= i < n :: Ack(i)
  }

  /** The counter after `acks` decrements of an unsigned word. */
  function CountDown(inProgress: nat, acks: nat): int {
    inProgress - acks + if acks <= inProgress then 0 else WORD
  }

  lemma {:induction false} AckedBound(notes: set<Slot>, n: nat)
    ensures |Acked(notes, n)| <= n
  {
    if n == 0 {
      assert Acked(notes, 0) == {};
    } else {
      AckedBound(notes, n - 1);
      MoreAcked(notes, n - 1);
    }
  }

  lemma MoreAcked(notes: set<Slot>, n: nat)
    ensures Acked(notes, n + 1) == Acked(notes, n) + (if Ack(n) in notes then {n} else {})
    ensures |Acked(notes, n + 1)| == |Acked(notes, n)| + if Ack(n) in notes then 1 else 0
  {
    var more := if Ack(n) in notes then {n} else {};
    assert Acked(notes, n + 1) == Acked(notes, n) + more;
    assert n !in Acked(notes, n);
  }

  lemma MoreSlots(notes: set<Slot>, n: nat)
    ensures notes - AckSlots(n + 1) == notes - AckSlots(n) - {Ack(n)}
    ensures Ack(n) in notes - AckSlots(n) <==> Ack(n) in notes
  {
    assert AckSlots(n + 1) == AckSlots(n) + {Ack(n)};
  }

  class Broadcast<T(0)> {
    const numberElements: nat
    const numberRanks: nat
    const rank: nat
    const root: nat
    /** The destinations of the root's source endpoints, which all share `buffer`. */
    const destinations: seq<nat>
    const buffer: array<T>
    var transfersInProgress: nat
    var notes: set<Slot>
    var posted: seq<Msg>
    ghost var ctl: Control

    ghost predicate Valid() {
      && rank < numberRanks < WORD && root < numberRanks && buffer.Length == numberElements
      && (1 < numberRanks && rank == root ==> destinations == Destinations(numberRanks, root))
    }

    ghost function View(): Proc<T>
      reads this`notes, buffer
    {
      Process(map[Buf := buffer[..]], notes)
    }

    ghost predicate Models(cfg: Config<T>)
      reads this`ctl, this`transfersInProgress
    {
      && cfg.Valid() && Valid() && cfg.p == numberRanks && cfg.root == root && |cfg.input| == numberElements
      && ControlOk(cfg, ctl) && (rank == root && ctl.started ==> ctl.inProgress == transfersInProgress)
    }

    static method GenerateNonRootRanks(numberRanks: nat, root: nat) returns (ranks: seq<nat>)
      ensures ranks == NonRootRanks(numberRanks, root)
    {
      ranks := [];
      for i := 0 to numberRanks
        invariant ranks == NonRootRanks(i, root)
      {
        if root != i { ranks := ranks + [i]; }
      }
    }

    constructor (numberElements: nat, numberRanks: nat, rank: nat, root: nat)
      requires rank < numberRanks < WORD && root < numberRanks
      ensures Valid() && this.numberElements == numberElements && this.numberRanks == numberRanks
      ensures this.rank == rank && this.root == root && notes == {} && posted == []
      ensures ctl == Control(false, false, 0, 0, {})
    {
      this.numberElements, this.numberRanks, this.rank, this.root := numberElements, numberRanks, rank, root;
      this.buffer := new T[numberElements];
      this.transfersInProgress, this.notes, this.posted := 0, {}, [];
      this.ctl := Control(false, false, 0, 0, {});
      var destinations: seq<nat> := [];
      if 1 < numberRanks && rank == root {
        var ranks := GenerateNonRootRanks(numberRanks, root);
        NonRootLength(numberRanks, root);
        destinations := [ranks[|ranks| - 1]];
        for i := 0 to |ranks| - 1
          invariant destinations == [ranks[|ranks| - 1]] + ranks[..i]
        {
          destinations := destinations + [ranks[i]];
        }
      }
      this.destinations := destinations;
    }

    method CheckForNotification(slot: Slot) returns (raised: bool)
      modifies this`notes
      ensures raised <==> slot in old(notes)
      ensures notes == old(notes) - {slot} && (!raised ==> notes == old(notes))
    {
      raised := slot in notes;
      notes := notes - {slot};
    }

    method StartImpl(ghost cfg: Config<T>)
      requires Valid() && (1 < numberRanks ==> Models(cfg) && !ctl.started)
      modifies this`transfersInProgress, this`posted, this`ctl
      ensures numberRanks == 1 ==> unchanged(this)
      ensures 1 < numberRanks ==>
                var o := Start(cfg, rank, old(ctl), old(View()));
                Models(cfg) && ctl == o.ctl && View() == o.proc && posted == old(posted) + o.posts
    {
      if numberRanks == 1 { return; }
      ctl := Start(cfg, rank, ctl, View()).ctl;
      if rank == root {
        DestinationsBijective(numberRanks, root, 0, 0);
        for i := 0 to |destinations|
          invariant posted == old(posted) + cfg.Sends(i)
          invariant ctl == Start(cfg, rank, old(ctl), old(View())).ctl && View() == old(View())
        {
          posted := posted + [if numberElements == 0 then Notify(destinations[i], Dat)
                              else Write(root, Buf, destinations[i], Buf, Dat)];
        }
        transfersInProgress := |destinations|;
      }
    }

    /** One pass of the root's polling loop. */
    method PollEndpoint(i: nat, ghost cfg: Config<T>)
      requires Models(cfg) && 1 < numberRanks && rank == root && i < |destinations| == numberRanks - 1
      requires ctl.started && ctl.poll == i
      modifies this`transfersInProgress, this`notes, this`ctl
      ensures Models(cfg) && ctl.started && ctl.poll == i + 1
      ensures Poll(cfg, rank, old(ctl), old(View())) == Outcome(ctl, View(), [])
      ensures notes == old(notes) - {Ack(i)}
      ensures ctl.acked == old(ctl.acked) + if Ack(i) in old(notes) then {i} else {}
      ensures transfersInProgress == if Ack(i) !in old(notes) then old(transfersInProgress)
                                     else if old(transfersInProgress) == 0 then WORD - 1
                                     else old(transfersInProgress) - 1
    {
      ghost var o := Poll(cfg, rank, ctl, View());
      var done := CheckForNotification(Ack(i));
      if done { transfersInProgress := if transfersInProgress == 0 then WORD - 1 else transfersInProgress - 1; }
      ctl := o.ctl;
    }

    /** The root's polling loop. */
    method PollEndpoints(ghost cfg: Config<T>)
      requires Models(cfg) && rank == root && ctl.started && ctl.poll == 0
      modifies this`transfersInProgress, this`notes, this`ctl
      ensures Polled(cfg, old(ctl), old(View()), old(transfersInProgress), numberRanks - 1)
    {
      NothingPolled(cfg);
      for i := 0 to |destinations|
        invariant Polled(cfg, old(ctl), old(View()), old(transfersInProgress), i)
      {
        PollNext(i, cfg, old(ctl), old(View()), old(transfersInProgress));
      }
    }

    /** The root has polled its first `n` endpoints. */
    ghost predicate Polled(cfg: Config<T>, ctl0: Control, proc0: Proc<T>, inProgress0: nat, n: nat)
      reads this`ctl, this`notes, this`transfersInProgress, buffer
    {
      && Models(cfg) && rank == root && ctl.started && ctl.poll == n
      && ControlOk(cfg, ctl0) && ctl0.started && Polls(cfg, ctl0, proc0, n) == Outcome(ctl, View(), [])
      && ctl.acked == ctl0.acked + Acked(proc0.notes, n) && notes == proc0.notes - AckSlots(n)
      && transfersInProgress == CountDown(inProgress0, |Acked(proc0.notes, n)|)
    }

    lemma NothingPolled(cfg: Config<T>)
      requires Models(cfg) && rank == root && ctl.started && ctl.poll == 0
      ensures Polled(cfg, ctl, View(), transfersInProgress, 0)
      ensures transfersInProgress < WORD && |destinations| == numberRanks - 1
    {
      DestinationsBijective(numberRanks, root, 0, 0);
      assert Acked(notes, 0) == {} && AckSlots(0) == {};
    }

    /** The body of that loop. */
    method PollNext(i: nat, ghost cfg: Config<T>, ghost ctl0: Control, ghost proc0: Proc<T>, ghost inProgress0: nat)
      requires Polled(cfg, ctl0, proc0, inProgress0, i) && i < |destinations| == numberRanks - 1 && inProgress0 < WORD
      modifies this`transfersInProgress, this`notes, this`ctl
      ensures Polled(cfg, ctl0, proc0, inProgress0, i + 1)
    {
      MoreAcked(proc0.notes, i);
      MoreSlots(proc0.notes, i);
      AckedBound(proc0.notes, i);
      PollEndpoint(i, cfg);
    }

    /** The root polls every endpoint once and then looks at its counter; another rank polls once. */
    method TriggerProgressImpl(ghost cfg: Config<T>) returns (done: bool)
      requires Valid() && (1 < numberRanks ==> Models(cfg) && ctl.started && ctl.poll == 0)
      modifies this`transfersInProgress, this`notes, this`posted, this`ctl
      ensures numberRanks == 1 ==> done && unchanged(this)
      ensures 1 < numberRanks ==> Models(cfg) && ctl.started && ctl.poll == 0 && (done ==> ctl.done)
      ensures 1 < numberRanks && rank == root ==>
                && Polls(cfg, old(ctl), old(View()), numberRanks) == Outcome(ctl, View(), []) && posted == old(posted)
                && (done <==> transfersInProgress == 0) && (done <==> ctl.done)
      ensures 1 < numberRanks && rank == root ==>
                var acks := set i | 0 <= i < numberRanks - 1 && Ack(i) in old(notes);
                && ctl.acked == old(ctl.acked) + acks
                && notes == old(notes) - (set i | 0 <= i < numberRanks - 1 :: Ack(i))
                && transfersInProgress == old(transfersInProgress) - |acks|
                                          + if |acks| <= old(transfersInProgress) then 0 else WORD
      ensures 1 < numberRanks && rank != root ==>
                var o := Poll(cfg, rank, old(ctl), old(View()));
                ctl == o.ctl && View() == o.proc && posted == old(posted) + o.posts && (done <==> Dat in old(notes))
    {
      if numberRanks == 1 { return true; }
      if rank == root {
        PollEndpoints(cfg);
        assert Acked(old(notes), numberRanks - 1) == set i | 0 <= i < numberRanks - 1 && Ack(i) in old(notes);
        done := transfersInProgress == 0;
        ctl := ctl.(poll := 0, done := done);
      } else {
        done := CheckForNotification(Dat);
        if done {
          ctl := ctl.(done := true);
          posted := posted + [Notify(root, Ack(EndpointOf(numberRanks, root, rank)))];
        }
      }
    }

    method CopyInImpl(inputs: array<T>)
      requires Valid() && inputs.Length == numberElements && inputs != buffer
      modifies buffer
      ensures buffer[..] == if rank == root then inputs[..] else old(buffer[..])
    {
      if rank == root { CopyBuffer(inputs, buffer); }
    }

    method CopyOutImpl(outputs: array<T>)
      requires Valid() && outputs.Length == numberElements && outputs != buffer
      modifies outputs
      ensures outputs[..] == buffer[..]
    {
      CopyBuffer(buffer, outputs);
    }
  }
}
