/** Every step of the ring allreduce machine preserves the contents of the cells. */
module RingContents {
  import opened RingIndex
  import opened Reduction
  import opened Transport
  import opened RingAllreduce
  import opened RingInvariant
  import opened RingCounts

  lemma InitContents<T>(cfg: Config<T>, s: State<T>)
    requires Init(cfg, s)
    ensures Contents(cfg, s)
  {}

  lemma ZipHead<T>(op: (T, T) -> T, a: seq<T>, b: seq<T>, n: nat)
    requires |a| == |b| && n <= |a|
    ensures Zip(op, a, b)[..n] == Zip(op, a[..n], b[..n])
  {}

  /** Rank `x` keeps its cells, notifications and control. */
  ghost predicate Same<T>(s: State<T>, s': State<T>, x: nat)
    requires x < |s.ctl| == |s.net.procs| == |s.rounds| == |s.outs|
  {
    && |s'.ctl| == |s.ctl| && |s'.net.procs| == |s.net.procs| && |s'.rounds| == |s.rounds| && |s'.outs| == |s.outs|
    && s'.net.procs[x] == s.net.procs[x] && s'.ctl[x] == s.ctl[x]
    && s'.rounds[x] == s.rounds[x] && s'.outs[x] == s.outs[x]
  }

  /** Contents change only at `r`, so it suffices to look there. */
  lemma OnlyAt<T>(cfg: Config<T>, s: State<T>, s': State<T>, r: nat)
    requires Shape(cfg, s) && Shape(cfg, s') && Contents(cfg, s) && r < cfg.p
    requires forall x :: 0 <= x < cfg.p && x != r ==> Same(s, s', x)
    requires forall c :: 0 <= c < cfg.p ==> SourceAt(cfg, s', r, c) && TargetAt(cfg, s', r, c)
    requires OutputsAt(cfg, s', r)
    ensures Contents(cfg, s')
  {
    forall x, c | 0 <= x < cfg.p && 0 <= c < cfg.p ensures SourceAt(cfg, s', x, c) && TargetAt(cfg, s', x, c) {
      assert SourceAt(cfg, s, x, c) && TargetAt(cfg, s, x, c);
      assert x != r ==> Same(s, s', x);
    }
    forall x | 0 <= x < cfg.p ensures OutputsAt(cfg, s', x) {
      assert OutputsAt(cfg, s, x);
      assert x != r ==> Same(s, s', x);
    }
  }

  // ----- copyIn, start, copyOut -----

  lemma NotGathered<T>(cfg: Config<T>, s: State<T>, r: nat, c: nat)
    requires Counts(cfg, s) && r < cfg.p && c < cfg.p && Pos(s, r) <= Dist(cfg.p, r, c)
    ensures !Gathered(cfg, s, r, c)
  {
    var d := Dist(cfg.p, r, c);
    if d <= cfg.p - 2 && Gat(c) in s.net.procs[r].notes {
      assert Into(cfg.p, r, cfg.p - 1 + d).slot == Gat(c);
      GatherInFlight(cfg, s, r, d);
    }
  }

  lemma CopiedIn<T>(cfg: Config<T>, proc: Proc<T>, x: seq<T>, c: nat)
    requires cfg.Valid() && Allocated(cfg, proc) && |x| == cfg.n && c < cfg.p
    ensures Allocated(cfg, CopyIn(cfg, proc, x)) && CopyIn(cfg, proc, x).notes == proc.notes
    ensures Head(cfg, CopyIn(cfg, proc, x), Src(c)) == Chunk(cfg, x, c)
    ensures CopyIn(cfg, proc, x).mem[Tgt(c)] == proc.mem[Tgt(c)]
  {}

  lemma CopyInAt<T>(cfg: Config<T>, s: State<T>, s': State<T>, r: nat, c: nat)
    requires Shape(cfg, s) && Shape(cfg, s') && r < cfg.p && c < cfg.p
    requires s.ctl[r].phase.Initialized? && s'.ctl[r].phase.Ready? && s'.rounds[r] == s.rounds[r]
    requires s'.net.procs[r] == CopyIn(cfg, s.net.procs[r], cfg.input(r, s.rounds[r]))
    requires TargetAt(cfg, s, r, c) && !Gathered(cfg, s, r, c)
    ensures SourceAt(cfg, s', r, c) && TargetAt(cfg, s', r, c)
  {
    CopiedIn(cfg, s.net.procs[r], cfg.input(r, s.rounds[r]), c);
    NowReady(cfg, s, s', r, c);
  }

  /** After copyIn: a source holds the input chunk, a target what it held before. */
  lemma NowReady<T>(cfg: Config<T>, s: State<T>, s': State<T>, r: nat, c: nat)
    requires Shape(cfg, s) && Shape(cfg, s') && r < cfg.p && c < cfg.p
    requires s.ctl[r].phase.Initialized? && s'.ctl[r].phase.Ready? && s'.rounds[r] == s.rounds[r]
    requires s'.net.procs[r].notes == s.net.procs[r].notes
    requires Head(cfg, s'.net.procs[r], Src(c)) == Chunk(cfg, cfg.input(r, s.rounds[r]), c)
    requires s'.net.procs[r].mem[Tgt(c)] == s.net.procs[r].mem[Tgt(c)]
    requires TargetAt(cfg, s, r, c) && !Gathered(cfg, s, r, c)
    ensures SourceAt(cfg, s', r, c) && TargetAt(cfg, s', r, c)
  {
    assert !Gathered(cfg, s', r, c);
  }

  lemma CopyInContents<T>(cfg: Config<T>, s: State<T>, r: nat)
    requires Inv(cfg, s) && Enabled(cfg, s, DoCopyIn(r))
    ensures Shape(cfg, Step(cfg, s, DoCopyIn(r))) && Contents(cfg, Step(cfg, s, DoCopyIn(r)))
  {
    var s' := Step(cfg, s, DoCopyIn(r));
    CopyInShape(cfg, s, r);
    forall c | 0 <= c < cfg.p ensures SourceAt(cfg, s', r, c) && TargetAt(cfg, s', r, c) {
      assert TargetAt(cfg, s, r, c);
      NotGathered(cfg, s, r, c);
      CopyInAt(cfg, s, s', r, c);
    }
    assert OutputsAt(cfg, s, r);
    OnlyAt(cfg, s, s', r);
  }

  lemma StartAt<T>(cfg: Config<T>, s: State<T>, s': State<T>, r: nat, c: nat)
    requires Shape(cfg, s) && Shape(cfg, s') && r < cfg.p && c < cfg.p
    requires SourceAt(cfg, s, r, c) && TargetAt(cfg, s, r, c)
    requires s.ctl[r].phase.Ready? && s'.ctl[r].phase.Running? && s'.ctl[r].step == 0
    requires s'.net.procs == s.net.procs && s'.rounds == s.rounds
    ensures SourceAt(cfg, s', r, c) && TargetAt(cfg, s', r, c)
  {
    assert Gathered(cfg, s', r, c) == Gathered(cfg, s, r, c);
    assert Partial(cfg, s.rounds[r], r, 0) == Chunk(cfg, cfg.input(r, s.rounds[r]), r);
  }

  lemma StartContents<T>(cfg: Config<T>, s: State<T>, r: nat)
    requires Inv(cfg, s) && Enabled(cfg, s, DoStart(r))
    ensures Shape(cfg, Step(cfg, s, DoStart(r))) && Contents(cfg, Step(cfg, s, DoStart(r)))
  {
    var s' := Step(cfg, s, DoStart(r));
    StartShape(cfg, s, r);
    forall c | 0 <= c < cfg.p ensures SourceAt(cfg, s', r, c) && TargetAt(cfg, s', r, c) {
      CellsOf(cfg, s, r, c);
      StartAt(cfg, s, s', r, c);
    }
    assert OutputsAt(cfg, s, r);
    OnlyAt(cfg, s, s', r);
  }

  lemma {:induction false} CopyOutResult<T>(cfg: Config<T>, s: State<T>, r: nat, upTo: nat)
    requires Shape(cfg, s) && r < cfg.p && upTo <= cfg.p && s.ctl[r].phase.Finished?
    requires forall c {:trigger SourceAt(cfg, s, r, c)} :: 0 <= c < cfg.p ==> SourceAt(cfg, s, r, c)
    ensures 0 < s.rounds[r]
    ensures CopyOut(cfg, s.net.procs[r], upTo) == Result(cfg, s.rounds[r] - 1, upTo)
  {
    if upTo == 0 {
      assert SourceAt(cfg, s, r, 0);
    } else {
      CopyOutResult(cfg, s, r, upTo - 1);
      assert SourceAt(cfg, s, r, upTo - 1);
      assert Head(cfg, s.net.procs[r], Src(upTo - 1)) == Full(cfg, s.rounds[r] - 1, upTo - 1);
    }
  }

  lemma CopyOutAll<T>(cfg: Config<T>, s: State<T>, s': State<T>, r: nat)
    requires Shape(cfg, s) && Shape(cfg, s') && Contents(cfg, s) && r < cfg.p && s.ctl[r].phase.Finished?
    requires s'.net == s.net && s'.rounds == s.rounds && s'.ctl == s.ctl[r := s.ctl[r].(phase := Initialized)]
    requires s'.outs == s.outs[r := s.outs[r] + [CopyOut(cfg, s.net.procs[r], cfg.p)]]
    ensures Contents(cfg, s')
  {
    forall c | 0 <= c < cfg.p ensures SourceAt(cfg, s', r, c) && TargetAt(cfg, s', r, c) {
      assert TargetAt(cfg, s, r, c);
    }
    CopyOutResult(cfg, s, r, cfg.p);
    assert OutputsAt(cfg, s, r);
    OnlyAt(cfg, s, s', r);
  }

  lemma CopyOutContents<T>(cfg: Config<T>, s: State<T>, r: nat)
    requires Inv(cfg, s) && Enabled(cfg, s, DoCopyOut(r))
    ensures Shape(cfg, Step(cfg, s, DoCopyOut(r))) && Contents(cfg, Step(cfg, s, DoCopyOut(r)))
  {
    CopyOutShape(cfg, s, r);
    CopyOutAll(cfg, s, Step(cfg, s, DoCopyOut(r)), r);
  }

  // ----- triggerProgress -----

  /** The reduction of the live part of a chunk. */
  lemma ReducePartial<T>(cfg: Config<T>, proc: Proc<T>, r: nat, k: nat, c: nat)
    requires cfg.Valid() && Allocated(cfg, proc) && r < cfg.p && c < cfg.p && 1 <= Dist(cfg.p, r, c)
    requires Head(cfg, proc, Src(c)) == Chunk(cfg, cfg.input(r, k), c)
    requires Head(cfg, proc, Tgt(c)) == Partial(cfg, k, c, Dist(cfg.p, r, c) - 1)
    ensures Zip(cfg.op, proc.mem[Src(c)], proc.mem[Tgt(c)])[..Live(cfg, c)] == Partial(cfg, k, c, Dist(cfg.p, r, c))
  {
    ZipHead(cfg.op, proc.mem[Src(c)], proc.mem[Tgt(c)], Live(cfg, c));
    assert Forth(cfg.p, c, Dist(cfg.p, r, c)) == r;
  }

  lemma ReduceCell<T>(cfg: Config<T>, s: State<T>, r: nat)
    requires Inv(cfg, s) && Enabled(cfg, s, DoTrigger(r)) && s.ctl[r].step < cfg.p - 1
    requires Red(s.ctl[r].index) in s.net.procs[r].notes
    ensures var c, k, d, proc := s.ctl[r].index, s.rounds[r], s.ctl[r].step + 1, s.net.procs[r];
            && Dist(cfg.p, r, c) == d
            && Zip(cfg.op, proc.mem[Src(c)], proc.mem[Tgt(c)])[..Live(cfg, c)] == Partial(cfg, k, c, d)
            && !Gathered(cfg, s, r, c)
  {
    NotYetGathered(cfg, s, r);
    ReduceNext(cfg, s, r);
  }

  lemma ReduceNext<T>(cfg: Config<T>, s: State<T>, r: nat)
    requires Shape(cfg, s) && Contents(cfg, s) && Enabled(cfg, s, DoTrigger(r)) && !Gathered(cfg, s, r, s.ctl[r].index)
    requires Dist(cfg.p, r, s.ctl[r].index) == s.ctl[r].step + 1 && Red(s.ctl[r].index) in s.net.procs[r].notes
    ensures var c, proc := s.ctl[r].index, s.net.procs[r];
            Zip(cfg.op, proc.mem[Src(c)], proc.mem[Tgt(c)])[..Live(cfg, c)]
            == Partial(cfg, s.rounds[r], c, s.ctl[r].step + 1)
  {
    CellsOf(cfg, s, r, s.ctl[r].index);
    ReduceCellAt(cfg, s, r, s.ctl[r].index);
  }

  lemma NotYetGathered<T>(cfg: Config<T>, s: State<T>, r: nat)
    requires Counts(cfg, s) && Enabled(cfg, s, DoTrigger(r)) && s.ctl[r].step < cfg.p - 1
    ensures Dist(cfg.p, r, s.ctl[r].index) == s.ctl[r].step + 1 && !Gathered(cfg, s, r, s.ctl[r].index)
  {
    IndexDist(cfg.p, r, s.ctl[r]);
    NotGathered(cfg, s, r, s.ctl[r].index);
  }

  lemma IndexDist(p: nat, r: nat, ctl: Control)
    requires r < p && ctl.step < p - 1 && ctl.index == Back(p, r, ctl.step + 1)
    ensures ctl.index < p && Dist(p, r, ctl.index) == ctl.step + 1
  {}

  lemma CellsOf<T>(cfg: Config<T>, s: State<T>, r: nat, c: nat)
    requires Shape(cfg, s) && Contents(cfg, s) && r < cfg.p && c < cfg.p
    ensures SourceAt(cfg, s, r, c) && TargetAt(cfg, s, r, c)
  {}

  lemma ReduceCellAt<T>(cfg: Config<T>, s: State<T>, r: nat, c: nat)
    requires Shape(cfg, s) && r < cfg.p && c < cfg.p && s.ctl[r].phase.Running? && 1 <= Dist(cfg.p, r, c) == Pos(s, r)
    requires SourceAt(cfg, s, r, c) && TargetAt(cfg, s, r, c) && !Gathered(cfg, s, r, c)
    requires Red(c) in s.net.procs[r].notes
    ensures var proc := s.net.procs[r];
            Zip(cfg.op, proc.mem[Src(c)], proc.mem[Tgt(c)])[..Live(cfg, c)]
            == Partial(cfg, s.rounds[r], c, Dist(cfg.p, r, c))
  {
    ReducePartial(cfg, s.net.procs[r], r, s.rounds[r], c);
  }

  /** The chunk that a reduce step works on. */
  lemma ReduceOwn<T>(cfg: Config<T>, s: State<T>, s': State<T>, r: nat, c: nat)
    requires Shape(cfg, s) && Shape(cfg, s') && r < cfg.p && c < cfg.p && !Gathered(cfg, s, r, c)
    requires Pos(s, r) == Dist(cfg.p, r, c) && Pos(s', r) == Pos(s, r) + 1 && s'.ctl[r].phase.Running?
    requires Head(cfg, s'.net.procs[r], Src(c)) == Partial(cfg, s'.rounds[r], c, Dist(cfg.p, r, c))
    requires s'.net.procs[r].notes == s.net.procs[r].notes - {Red(c)}
    ensures SourceAt(cfg, s', r, c) && TargetAt(cfg, s', r, c)
  {
    assert !Gathered(cfg, s', r, c);
  }

  /** Any other chunk. */
  lemma ReduceOther<T>(cfg: Config<T>, s: State<T>, s': State<T>, r: nat, c0: nat, c: nat)
    requires Shape(cfg, s) && Shape(cfg, s') && r < cfg.p && c0 < cfg.p && c < cfg.p && c != c0
    requires SourceAt(cfg, s, r, c) && TargetAt(cfg, s, r, c)
    requires Pos(s, r) == Dist(cfg.p, r, c0) && Pos(s', r) == Pos(s, r) + 1
    requires s.ctl[r].phase.Running? && s'.ctl[r].phase.Running? && s'.rounds[r] == s.rounds[r]
    requires s'.net.procs[r].mem[Src(c)] == s.net.procs[r].mem[Src(c)]
    requires s'.net.procs[r].mem[Tgt(c)] == s.net.procs[r].mem[Tgt(c)]
    requires s'.net.procs[r].notes == s.net.procs[r].notes - {Red(c0)}
    ensures SourceAt(cfg, s', r, c) && TargetAt(cfg, s', r, c)
  {
    var d := Dist(cfg.p, r, c);
    assert d != Pos(s, r) && Pos(s', r) <= cfg.p;
    assert Gathered(cfg, s', r, c) <==> Gathered(cfg, s, r, c);
    assert Pos(s', r) >= d + 1 <==> Pos(s, r) >= d + 1;
  }

  lemma ReduceAt<T>(cfg: Config<T>, s: State<T>, s': State<T>, r: nat, c0: nat, v: seq<T>, c: nat)
    requires Shape(cfg, s) && Shape(cfg, s') && r < cfg.p && c0 < cfg.p && c < cfg.p
    requires SourceAt(cfg, s, r, c) && TargetAt(cfg, s, r, c)
    requires s.ctl[r].phase.Running? && s.ctl[r].step + 1 == Dist(cfg.p, r, c0)
    requires s'.ctl[r].phase.Running? && s'.ctl[r].step == s.ctl[r].step + 1 && s'.rounds[r] == s.rounds[r]
    requires s'.net.procs[r].mem == s.net.procs[r].mem[Src(c0) := v]
    requires s'.net.procs[r].notes == s.net.procs[r].notes - {Red(c0)}
    requires |v| >= Live(cfg, c0) && v[..Live(cfg, c0)] == Partial(cfg, s.rounds[r], c0, Dist(cfg.p, r, c0))
    requires !Gathered(cfg, s, r, c0)
    ensures SourceAt(cfg, s', r, c) && TargetAt(cfg, s', r, c)
  {
    if c == c0 { ReduceOwn(cfg, s, s', r, c); } else { ReduceOther(cfg, s, s', r, c0, c); }
  }

  lemma ReduceAll<T>(cfg: Config<T>, s: State<T>, s': State<T>, r: nat, c0: nat, v: seq<T>)
    requires Shape(cfg, s) && Shape(cfg, s') && Contents(cfg, s) && r < cfg.p && c0 < cfg.p
    requires forall x :: 0 <= x < cfg.p && x != r ==> Same(s, s', x)
    requires s.ctl[r].phase.Running? && s.ctl[r].step + 1 == Dist(cfg.p, r, c0)
    requires s'.ctl[r].phase.Running? && s'.ctl[r].step == s.ctl[r].step + 1
    requires s'.rounds[r] == s.rounds[r] && s'.outs[r] == s.outs[r]
    requires s'.net.procs[r].mem == s.net.procs[r].mem[Src(c0) := v]
    requires s'.net.procs[r].notes == s.net.procs[r].notes - {Red(c0)}
    requires |v| >= Live(cfg, c0) && v[..Live(cfg, c0)] == Partial(cfg, s.rounds[r], c0, Dist(cfg.p, r, c0))
    requires !Gathered(cfg, s, r, c0)
    ensures Contents(cfg, s')
  {
    forall c | 0 <= c < cfg.p ensures SourceAt(cfg, s', r, c) && TargetAt(cfg, s', r, c) {
      assert SourceAt(cfg, s, r, c) && TargetAt(cfg, s, r, c);
      ReduceAt(cfg, s, s', r, c0, v, c);
    }
    assert OutputsAt(cfg, s, r);
    OnlyAt(cfg, s, s', r);
  }

  lemma ReduceStepAll<T>(cfg: Config<T>, s: State<T>, r: nat)
    requires Shape(cfg, s) && Contents(cfg, s) && Enabled(cfg, s, DoTrigger(r)) && s.ctl[r].step < cfg.p - 1
    requires Red(s.ctl[r].index) in s.net.procs[r].notes && Shape(cfg, Step(cfg, s, DoTrigger(r)))
    requires !Gathered(cfg, s, r, s.ctl[r].index) && Dist(cfg.p, r, s.ctl[r].index) == s.ctl[r].step + 1
    requires var c, proc := s.ctl[r].index, s.net.procs[r];
             Zip(cfg.op, proc.mem[Src(c)], proc.mem[Tgt(c)])[..Live(cfg, c)]
             == Partial(cfg, s.rounds[r], c, s.ctl[r].step + 1)
    ensures Contents(cfg, Step(cfg, s, DoTrigger(r)))
  {
    var c, proc := s.ctl[r].index, s.net.procs[r];
    ReduceStep(cfg, s, r);
    ReduceAll(cfg, s, Step(cfg, s, DoTrigger(r)), r, c, Zip(cfg.op, proc.mem[Src(c)], proc.mem[Tgt(c)]));
  }

  lemma ReduceContents<T>(cfg: Config<T>, s: State<T>, r: nat)
    requires Inv(cfg, s) && Enabled(cfg, s, DoTrigger(r)) && s.ctl[r].step < cfg.p - 1
    requires Red(s.ctl[r].index) in s.net.procs[r].notes
    ensures Shape(cfg, Step(cfg, s, DoTrigger(r))) && Contents(cfg, Step(cfg, s, DoTrigger(r)))
  {
    TriggerShape(cfg, s, r);
    ReduceCell(cfg, s, r);
    ReduceStepAll(cfg, s, r);
  }

  /** What a reduce step changes. */
  lemma ReduceStep<T>(cfg: Config<T>, s: State<T>, r: nat)
    requires Shape(cfg, s) && Enabled(cfg, s, DoTrigger(r)) && s.ctl[r].step < cfg.p - 1
    requires Red(s.ctl[r].index) in s.net.procs[r].notes
    ensures var s', c, proc := Step(cfg, s, DoTrigger(r)), s.ctl[r].index, s.net.procs[r];
            && s'.ctl[r].phase.Running? && s'.ctl[r].step == s.ctl[r].step + 1
            && s'.rounds == s.rounds && s'.outs == s.outs
            && s'.net.procs[r].mem == proc.mem[Src(c) := Zip(cfg.op, proc.mem[Src(c)], proc.mem[Tgt(c)])]
            && s'.net.procs[r].notes == proc.notes - {Red(c)}
            && forall x :: 0 <= x < cfg.p && x != r ==> Same(s, s', x)
  {}

  lemma GatherAt<T>(cfg: Config<T>, s: State<T>, s': State<T>, r: nat, c0: nat, c: nat)
    requires Shape(cfg, s) && Shape(cfg, s') && r < cfg.p && c0 < cfg.p && c < cfg.p
    requires SourceAt(cfg, s, r, c) && TargetAt(cfg, s, r, c)
    requires s.ctl[r].phase.Running? && s.ctl[r].step + 1 == cfg.p + Dist(cfg.p, r, c0)
    requires Dist(cfg.p, r, c0) <= cfg.p - 2
    requires s'.ctl[r].phase.Running? && s'.ctl[r].step == s.ctl[r].step + 1 && s'.rounds[r] == s.rounds[r]
    requires Gat(c0) in s.net.procs[r].notes
    requires s'.net.procs[r].mem == s.net.procs[r].mem && s'.net.procs[r].notes == s.net.procs[r].notes - {Gat(c0)}
    ensures SourceAt(cfg, s', r, c) && TargetAt(cfg, s', r, c)
  {
    assert Gathered(cfg, s', r, c) == Gathered(cfg, s, r, c);
  }

  lemma GatherAll<T>(cfg: Config<T>, s: State<T>, s': State<T>, r: nat, c0: nat)
    requires Shape(cfg, s) && Shape(cfg, s') && Contents(cfg, s) && r < cfg.p && c0 < cfg.p
    requires forall x :: 0 <= x < cfg.p && x != r ==> Same(s, s', x)
    requires s.ctl[r].phase.Running? && s.ctl[r].step + 1 == cfg.p + Dist(cfg.p, r, c0)
    requires Dist(cfg.p, r, c0) <= cfg.p - 2
    requires s'.ctl[r].phase.Running? && s'.ctl[r].step == s.ctl[r].step + 1
    requires s'.rounds[r] == s.rounds[r] && s'.outs[r] == s.outs[r]
    requires Gat(c0) in s.net.procs[r].notes
    requires s'.net.procs[r].mem == s.net.procs[r].mem && s'.net.procs[r].notes == s.net.procs[r].notes - {Gat(c0)}
    ensures Contents(cfg, s')
  {
    forall c | 0 <= c < cfg.p ensures SourceAt(cfg, s', r, c) && TargetAt(cfg, s', r, c) {
      assert SourceAt(cfg, s, r, c) && TargetAt(cfg, s, r, c);
      GatherAt(cfg, s, s', r, c0, c);
    }
    assert OutputsAt(cfg, s, r);
    OnlyAt(cfg, s, s', r);
  }

  /** What a gather step changes. */
  lemma GatherStep<T>(cfg: Config<T>, s: State<T>, r: nat)
    requires Shape(cfg, s) && Enabled(cfg, s, DoTrigger(r)) && cfg.p - 1 <= s.ctl[r].step < 2 * (cfg.p - 1)
    requires Gat(s.ctl[r].index) in s.net.procs[r].notes
    ensures var s', c := Step(cfg, s, DoTrigger(r)), s.ctl[r].index;
            && s'.ctl[r].phase.Running? && s'.ctl[r].step == s.ctl[r].step + 1
            && s'.rounds == s.rounds && s'.outs == s.outs
            && s'.net.procs[r].mem == s.net.procs[r].mem && s'.net.procs[r].notes == s.net.procs[r].notes - {Gat(c)}
            && forall x :: 0 <= x < cfg.p && x != r ==> Same(s, s', x)
  {}

  lemma GatherContents<T>(cfg: Config<T>, s: State<T>, r: nat)
    requires Inv(cfg, s) && Enabled(cfg, s, DoTrigger(r)) && cfg.p - 1 <= s.ctl[r].step < 2 * (cfg.p - 1)
    requires Gat(s.ctl[r].index) in s.net.procs[r].notes
    ensures Shape(cfg, Step(cfg, s, DoTrigger(r))) && Contents(cfg, Step(cfg, s, DoTrigger(r)))
  {
    TriggerShape(cfg, s, r);
    GatherStep(cfg, s, r);
    GatherAll(cfg, s, Step(cfg, s, DoTrigger(r)), r, s.ctl[r].index);
  }

  lemma FinishSource<T>(cfg: Config<T>, s: State<T>, s': State<T>, r: nat, c: nat)
    requires Shape(cfg, s) && Shape(cfg, s') && r < cfg.p && c < cfg.p && SourceAt(cfg, s, r, c)
    requires s.ctl[r].phase.Running? && s.ctl[r].step == 2 * cfg.p - 2
    requires s'.ctl[r].phase.Finished? && s'.rounds[r] == s.rounds[r] + 1
    requires s'.net.procs[r].mem == s.net.procs[r].mem
    ensures SourceAt(cfg, s', r, c)
  {}

  lemma FinishTarget<T>(cfg: Config<T>, s: State<T>, s': State<T>, r: nat, c: nat)
    requires Shape(cfg, s) && Shape(cfg, s') && r < cfg.p && c < cfg.p && TargetAt(cfg, s, r, c)
    requires s.ctl[r].phase.Running? && s.ctl[r].step == 2 * cfg.p - 2
    requires s'.ctl[r].phase.Finished? && s'.rounds[r] == s.rounds[r] + 1
    requires s'.net.procs[r].mem == s.net.procs[r].mem
    requires Red(c) in s'.net.procs[r].notes ==> Red(c) in s.net.procs[r].notes
    ensures TargetAt(cfg, s', r, c)
  {}

  lemma FinishContents<T>(cfg: Config<T>, s: State<T>, r: nat)
    requires Inv(cfg, s) && Enabled(cfg, s, DoTrigger(r)) && s.ctl[r].step == 2 * (cfg.p - 1)
    requires Step(cfg, s, DoTrigger(r)) != s
    ensures Shape(cfg, Step(cfg, s, DoTrigger(r))) && Contents(cfg, Step(cfg, s, DoTrigger(r)))
  {
    var s' := Step(cfg, s, DoTrigger(r));
    TriggerShape(cfg, s, r);
    FinishMoves(cfg, s, r);
    forall c | 0 <= c < cfg.p ensures SourceAt(cfg, s', r, c) && TargetAt(cfg, s', r, c) {
      assert SourceAt(cfg, s, r, c) && TargetAt(cfg, s, r, c);
      FinishSource(cfg, s, s', r, c);
      FinishTarget(cfg, s, s', r, c);
    }
    assert OutputsAt(cfg, s, r);
    OnlyAt(cfg, s, s', r);
  }

  lemma TriggerContents<T>(cfg: Config<T>, s: State<T>, r: nat)
    requires Inv(cfg, s) && Enabled(cfg, s, DoTrigger(r))
    ensures Shape(cfg, Step(cfg, s, DoTrigger(r))) && Contents(cfg, Step(cfg, s, DoTrigger(r)))
  {
    var i, s' := s.ctl[r].step, Step(cfg, s, DoTrigger(r));
    TriggerShape(cfg, s, r);
    if s' == s {
    } else if i < cfg.p - 1 {
      AdvanceOutcome(cfg, r, s.ctl[r], s.net.procs[r]);
      assert s.net.pending + multiset([]) == s.net.pending;
      ReduceContents(cfg, s, r);
    } else if i < 2 * (cfg.p - 1) {
      assert s.net.pending + multiset([]) == s.net.pending;
      AdvanceOutcome(cfg, r, s.ctl[r], s.net.procs[r]);
      GatherContents(cfg, s, r);
    } else {
      FinishContents(cfg, s, r);
    }
  }

  // ----- delivery -----

  /** What a pending reduce write is about to copy. */
  lemma CopiedPartial<T>(cfg: Config<T>, s: State<T>, r: nat, m: nat)
    requires Inv(cfg, s) && r < cfg.p && m <= cfg.p - 2 && 0 < InFlight(s.net, Into(cfg.p, r, m))
    ensures var c := Back(cfg.p, r, m + 1);
            Dist(cfg.p, r, c) == m + 1 &&
            Head(cfg, s.net.procs[Prev(cfg.p, r)], Src(c)) == Partial(cfg, ReceivedCount(s, r, m), c, m)
  {
    var p, l, c := cfg.p, Prev(cfg.p, r), Back(cfg.p, r, m + 1);
    assert Dist(p, l, c) == m;
    assert SourceAt(cfg, s, l, c);
    ReduceInFlight(cfg, s, r, m);
    assert Into(p, l, p - 1 + m).slot == Gat(c);
    assert !Gathered(cfg, s, l, c);
  }

  /** What a pending gather write is about to copy. */
  lemma CopiedFull<T>(cfg: Config<T>, s: State<T>, r: nat, d: nat)
    requires Inv(cfg, s) && r < cfg.p && d <= cfg.p - 2 && 0 < InFlight(s.net, Into(cfg.p, r, cfg.p - 1 + d))
    ensures var c := Back(cfg.p, r, d);
            && Dist(cfg.p, r, c) == d && s.ctl[r].phase.Running?
            && Head(cfg, s.net.procs[Prev(cfg.p, r)], Src(c)) == Full(cfg, s.rounds[r], c)
  {
    var p, l, c := cfg.p, Prev(cfg.p, r), Back(cfg.p, r, d);
    GatherInFlight(cfg, s, r, d);
    assert Dist(p, l, c) == if d == 0 then p - 1 else d - 1;
    assert SourceAt(cfg, s, l, c);
    assert d == 0 || Gathered(cfg, s, l, c);
  }

  lemma DeliverAt<T>(cfg: Config<T>, s: State<T>, s': State<T>, r: nat, slot: Slot, c: nat)
    requires Shape(cfg, s) && Shape(cfg, s') && r < cfg.p && c < cfg.p
    requires SourceAt(cfg, s, r, c) && TargetAt(cfg, s, r, c)
    requires s'.ctl == s.ctl && s'.rounds == s.rounds
    requires s'.net.procs[r].notes == s.net.procs[r].notes + {slot}
    requires slot.c == c && slot.Red? ==>
               && 1 <= Dist(cfg.p, r, c)
               && Head(cfg, s'.net.procs[r], Tgt(c))
                  == Partial(cfg, ReceivedCount(s, r, Dist(cfg.p, r, c) - 1), c, Dist(cfg.p, r, c) - 1)
    requires slot.c == c && slot.Gat? ==>
               && s.ctl[r].phase.Running? && Dist(cfg.p, r, c) <= cfg.p - 2
               && Head(cfg, s'.net.procs[r], Src(c)) == Full(cfg, s.rounds[r], c)
    requires !(slot.c == c && slot.Red?) ==> s'.net.procs[r].mem[Tgt(c)] == s.net.procs[r].mem[Tgt(c)]
    requires !(slot.c == c && slot.Gat?) ==> s'.net.procs[r].mem[Src(c)] == s.net.procs[r].mem[Src(c)]
    ensures SourceAt(cfg, s', r, c) && TargetAt(cfg, s', r, c)
  {}

  lemma DeliverOne<T>(cfg: Config<T>, s: State<T>, s': State<T>, r: nat, slot: Slot, cell: Cell, v: seq<T>, c: nat)
    requires Shape(cfg, s) && Shape(cfg, s') && r < cfg.p && slot.c < cfg.p && c < cfg.p
    requires SourceAt(cfg, s, r, c) && TargetAt(cfg, s, r, c)
    requires s'.ctl == s.ctl && s'.rounds == s.rounds
    requires s'.net.procs[r].notes == s.net.procs[r].notes + {slot}
    requires s'.net.procs[r].mem == if slot.Ack? then s.net.procs[r].mem else s.net.procs[r].mem[cell := v]
    requires slot.Red? ==> cell == Tgt(slot.c) && ReduceLands(cfg, s, s', r, slot.c)
    requires slot.Gat? ==> cell == Src(slot.c) && GatherLands(cfg, s, s', r, slot.c)
    ensures SourceAt(cfg, s', r, c) && TargetAt(cfg, s', r, c)
  {
    DeliverAt(cfg, s, s', r, slot, c);
  }

  /** The partial fold that rank `r` waits for is in its target for chunk `c`. */
  ghost predicate ReduceLands<T>(cfg: Config<T>, s: State<T>, s': State<T>, r: nat, c: nat)
    requires Shape(cfg, s) && Shape(cfg, s') && r < cfg.p && c < cfg.p
  {
    var d := Dist(cfg.p, r, c);
    1 <= d && Head(cfg, s'.net.procs[r], Tgt(c)) == Partial(cfg, ReceivedCount(s, r, d - 1), c, d - 1)
  }

  /** The full fold of chunk `c` is in its place. */
  ghost predicate GatherLands<T>(cfg: Config<T>, s: State<T>, s': State<T>, r: nat, c: nat)
    requires Shape(cfg, s) && Shape(cfg, s') && r < cfg.p && c < cfg.p
  {
    && s.ctl[r].phase.Running? && Dist(cfg.p, r, c) <= cfg.p - 2
    && Head(cfg, s'.net.procs[r], Src(c)) == Full(cfg, s.rounds[r], c)
  }

  lemma DeliverAll<T>(cfg: Config<T>, s: State<T>, s': State<T>, r: nat, slot: Slot, cell: Cell, v: seq<T>)
    requires Shape(cfg, s) && Contents(cfg, s) && Shape(cfg, s') && r < cfg.p && slot.c < cfg.p
    requires forall x :: 0 <= x < cfg.p && x != r ==> Same(s, s', x)
    requires s'.ctl == s.ctl && s'.rounds == s.rounds && s'.outs == s.outs
    requires s'.net.procs[r].notes == s.net.procs[r].notes + {slot}
    requires s'.net.procs[r].mem == if slot.Ack? then s.net.procs[r].mem else s.net.procs[r].mem[cell := v]
    requires slot.Red? ==> cell == Tgt(slot.c) && ReduceLands(cfg, s, s', r, slot.c)
    requires slot.Gat? ==> cell == Src(slot.c) && GatherLands(cfg, s, s', r, slot.c)
    ensures Contents(cfg, s')
  {
    forall c | 0 <= c < cfg.p ensures SourceAt(cfg, s', r, c) && TargetAt(cfg, s', r, c) {
      assert SourceAt(cfg, s, r, c) && TargetAt(cfg, s, r, c);
      DeliverOne(cfg, s, s', r, slot, cell, v, c);
    }
    assert OutputsAt(cfg, s, r);
    OnlyAt(cfg, s, s', r);
  }

  /** A process whose cell `cell` has been overwritten and whose notification `slot` raised. */
  ghost function Landed<T>(proc: Proc<T>, cell: Cell, v: seq<T>, slot: Slot): Proc<T> {
    Process(proc.mem[cell := v], proc.notes + {slot})
  }

  lemma LandsReduce<T>(p: nat, net: Net<Cell, Slot, seq<T>>, r: nat, m: nat)
    requires 2 <= p && r < p == |net.procs| && m <= p - 2 && Deliverable(net, Into(p, r, m))
    ensures var l, c := Prev(p, r), Back(p, r, m + 1);
            && Src(c) in net.procs[l].mem && Dist(p, r, c) == m + 1
            && Deliver(net, Into(p, r, m)).procs
               == net.procs[r := Landed(net.procs[r], Tgt(c), net.procs[l].mem[Src(c)], Red(c))]
  {}

  /** The pending reduce write of message `m` lands; `v` is what it copies. */
  lemma ReduceArrives<T>(cfg: Config<T>, s: State<T>, s': State<T>, r: nat, m: nat, c: nat, v: seq<T>)
    requires Shape(cfg, s) && Contents(cfg, s) && Shape(cfg, s') && r < cfg.p && c < cfg.p && m <= cfg.p - 2
    requires Dist(cfg.p, r, c) == m + 1
    requires s'.net.procs == s.net.procs[r := Landed(s.net.procs[r], Tgt(c), v, Red(c))]
    requires s'.ctl == s.ctl && s'.rounds == s.rounds && s'.outs == s.outs
    requires Live(cfg, c) <= |v| && v[..Live(cfg, c)] == Partial(cfg, ReceivedCount(s, r, m), c, m)
    ensures Contents(cfg, s')
  {
    DeliverAll(cfg, s, s', r, Red(c), Tgt(c), v);
  }

  lemma DeliverReduce<T>(cfg: Config<T>, s: State<T>, s': State<T>, r: nat, m: nat)
    requires Inv(cfg, s) && r < cfg.p && m <= cfg.p - 2 && 0 < InFlight(s.net, Into(cfg.p, r, m))
    requires Deliverable(s.net, Into(cfg.p, r, m)) && s' == s.(net := Deliver(s.net, Into(cfg.p, r, m)))
    requires Shape(cfg, s')
    ensures Contents(cfg, s')
  {
    var l, c := Prev(cfg.p, r), Back(cfg.p, r, m + 1);
    LandsReduce(cfg.p, s.net, r, m);
    CopiedPartial(cfg, s, r, m);
    ReduceArrives(cfg, s, s', r, m, c, s.net.procs[l].mem[Src(c)]);
  }

  lemma LandsGather<T>(p: nat, net: Net<Cell, Slot, seq<T>>, r: nat, d: nat)
    requires 2 <= p && r < p == |net.procs| && d <= p - 2 && Deliverable(net, Into(p, r, p - 1 + d))
    ensures var l, c := Prev(p, r), Back(p, r, d);
            && Src(c) in net.procs[l].mem && Dist(p, r, c) == d
            && Deliver(net, Into(p, r, p - 1 + d)).procs
               == net.procs[r := Landed(net.procs[r], Src(c), net.procs[l].mem[Src(c)], Gat(c))]
  {}

  lemma DeliverGather<T>(cfg: Config<T>, s: State<T>, s': State<T>, r: nat, d: nat)
    requires Inv(cfg, s) && r < cfg.p && d <= cfg.p - 2 && 0 < InFlight(s.net, Into(cfg.p, r, cfg.p - 1 + d))
    requires Deliverable(s.net, Into(cfg.p, r, cfg.p - 1 + d))
    requires s' == s.(net := Deliver(s.net, Into(cfg.p, r, cfg.p - 1 + d)))
    requires Shape(cfg, s')
    ensures Contents(cfg, s')
  {
    var l, c := Prev(cfg.p, r), Back(cfg.p, r, d);
    LandsGather(cfg.p, s.net, r, d);
    CopiedFull(cfg, s, r, d);
    DeliverAll(cfg, s, s', r, Gat(c), Src(c), s.net.procs[l].mem[Src(c)]);
  }

  lemma DeliverAck<T>(cfg: Config<T>, s: State<T>, t: Msg)
    requires Inv(cfg, s) && Deliverable(s.net, t) && t.slot.Ack? && Shape(cfg, Step(cfg, s, DoDeliver(t)))
    ensures Shape(cfg, Step(cfg, s, DoDeliver(t))) && Contents(cfg, Step(cfg, s, DoDeliver(t)))
  {
    NotRaised(cfg, s, t);
    DeliverAll(cfg, s, Step(cfg, s, DoDeliver(t)), t.dst, t.slot, Src(0), []);
  }

  lemma DeliverWrite<T>(cfg: Config<T>, s: State<T>, t: Msg, m: nat)
    requires Inv(cfg, s) && Deliverable(s.net, t) && Shape(cfg, Step(cfg, s, DoDeliver(t)))
    requires t.dst < cfg.p && m <= 2 * cfg.p - 3 && t == Into(cfg.p, t.dst, m)
    ensures Contents(cfg, Step(cfg, s, DoDeliver(t)))
  {
    var s' := Step(cfg, s, DoDeliver(t));
    assert 0 < InFlight(s.net, t);
    if m <= cfg.p - 2 {
      DeliverReduce(cfg, s, s', t.dst, m);
    } else {
      DeliverGather(cfg, s, s', t.dst, m - (cfg.p - 1));
    }
  }

  lemma DeliverContents<T>(cfg: Config<T>, s: State<T>, t: Msg)
    requires Inv(cfg, s) && Deliverable(s.net, t)
    ensures Shape(cfg, Step(cfg, s, DoDeliver(t))) && Contents(cfg, Step(cfg, s, DoDeliver(t)))
  {
    assert Legitimate(cfg.p, t);
    DeliverShape(cfg, s, t);
    if t.slot.Ack? {
      DeliverAck(cfg, s, t);
    } else {
      DeliverWrite(cfg, s, t, Number(cfg.p, t.dst, t.slot));
    }
  }
}
