/** Runs of alltoallv to their end: every step that changes the state lowers a natural number, so
    every run of k calls stops; where it stops, all ranks have returned if every block fits, and
    some rank has thrown if one does not. */
module AlltoallvProgress {
  import opened Transport
  import opened Alltoallv
  import opened AlltoallvTheorems

  // ----- the measure -----

  /** A rank that has begun at most `k` calls. */
  ghost predicate AtMost<T>(cfg: Config<T>, ctl: Control, k: nat) {
    ControlOk(cfg, ctl) && ctl.calls + B(ctl.inside) <= k
  }

  ghost predicate Within<T>(cfg: Config<T>, ctl: seq<Control>, k: nat) {
    forall r :: 0 <= r < |ctl| ==> AtMost(cfg, ctl[r], k)
  }

  /** The actions of a call: to enter it, one for each position, and to return. */
  function CallLength(p: nat): nat {
    6 * p + 2
  }

  /** The actions that a rank has left until it has returned from `k` calls; a throw counts as one. */
  ghost function ActionsLeft<T>(cfg: Config<T>, ctl: Control, k: nat): nat
    requires AtMost(cfg, ctl, k)
  {
    if ctl.inside then
      CallsLeft(cfg.p, k - ctl.calls - 1) + CallLength(cfg.p) - 1 - Position(cfg, ctl) - B(ctl.stage.Thrown?)
    else CallsLeft(cfg.p, k - ctl.calls)
  }

  function CallsLeft(p: nat, n: nat): nat {
    if n == 0 then 0 else CallsLeft(p, n - 1) + CallLength(p)
  }

  ghost function AllActionsLeft<T>(cfg: Config<T>, ctl: seq<Control>, k: nat, n: nat): nat
    requires n <= |ctl| && Within(cfg, ctl, k)
  {
    if n == 0 then 0 else AllActionsLeft(cfg, ctl, k, n - 1) + ActionsLeft(cfg, ctl[n - 1], k)
  }

  /** An action posts at most one transfer or one offer, and a match turns an offer into two transfers. */
  ghost function Measure<T>(cfg: Config<T>, s: State<T>, k: nat): nat
    requires Shape(cfg, s) && Within(cfg, s.ctl, k)
  {
    5 * AllActionsLeft(cfg, s.ctl, k, cfg.p) + 3 * |s.sends| + |s.net.pending|
  }

  /** A step that changes the state and begins no call but the first `k` ones. */
  ghost predicate Useful<T>(cfg: Config<T>, s: State<T>, a: Action, k: nat)
    requires Shape(cfg, s)
  {
    Enabled(cfg, s, a) && Step(cfg, s, a) != s && (a.DoEnter? ==> s.ctl[a.r].calls < k)
  }

  lemma {:induction false} OneActs<T>(cfg: Config<T>, ctl: seq<Control>, ctl': seq<Control>, k: nat, r: nat, n: nat)
    requires n <= |ctl| == |ctl'| && r < |ctl| && ctl' == ctl[r := ctl'[r]]
    requires Within(cfg, ctl, k) && Within(cfg, ctl', k)
    ensures AllActionsLeft(cfg, ctl', k, n) + (if r < n then ActionsLeft(cfg, ctl[r], k) else 0)
            == AllActionsLeft(cfg, ctl, k, n) + if r < n then ActionsLeft(cfg, ctl'[r], k) else 0
  {
    if n == 0 {
    } else {
      OneActs(cfg, ctl, ctl', k, r, n - 1);
    }
  }

  /** An action of a rank inside a call that changes its position is one action less to do. */
  lemma AdvanceActs<T>(cfg: Config<T>, r: nat, ctl: Control, proc: Proc<T>, k: nat)
    requires cfg.Valid() && ControlOk(cfg, ctl) && ctl.inside && Allocated(cfg, proc) && ctl.calls < k
    requires Advance(cfg, r, ctl, proc).ctl != ctl
    ensures var o := Advance(cfg, r, ctl, proc);
            && AtMost(cfg, o.ctl, k)
            && ActionsLeft(cfg, o.ctl, k) + 1 == ActionsLeft(cfg, ctl, k)
  {
    OnePosition(cfg, r, ctl, proc);
  }

  lemma AdvancePosts<T>(cfg: Config<T>, r: nat, ctl: Control, proc: Proc<T>)
    requires cfg.Valid() && ControlOk(cfg, ctl) && ctl.inside && Allocated(cfg, proc)
    ensures |Advance(cfg, r, ctl, proc).posts| <= 1
  {}

  /** A rank whose position does not change changes nothing. */
  lemma AdvanceChanges<T>(cfg: Config<T>, s: State<T>, r: nat)
    requires Shape(cfg, s) && Enabled(cfg, s, DoAdvance(r)) && Step(cfg, s, DoAdvance(r)) != s
    ensures Advance(cfg, r, s.ctl[r], s.net.procs[r]).ctl != s.ctl[r]
  {
    OnePosition(cfg, r, s.ctl[r], s.net.procs[r]);
    assert s.net.pending + multiset([]) == s.net.pending;
  }

  lemma AdvanceMeasure<T>(cfg: Config<T>, s: State<T>, r: nat, k: nat)
    requires Shape(cfg, s) && Within(cfg, s.ctl, k) && Useful(cfg, s, DoAdvance(r), k)
    requires Shape(cfg, Step(cfg, s, DoAdvance(r)))
    ensures Within(cfg, Step(cfg, s, DoAdvance(r)).ctl, k)
    ensures Measure(cfg, Step(cfg, s, DoAdvance(r)), k) < Measure(cfg, s, k)
  {
    var s' := Step(cfg, s, DoAdvance(r));
    AdvanceChanges(cfg, s, r);
    assert AtMost(cfg, s.ctl[r], k);
    AdvanceActs(cfg, r, s.ctl[r], s.net.procs[r], k);
    AdvancePosts(cfg, r, s.ctl[r], s.net.procs[r]);
    OneActs(cfg, s.ctl, s'.ctl, k, r, cfg.p);
    assert |s'.net.pending| <= |s.net.pending| + 1 && |s'.sends| <= |s.sends| + 1;
  }

  lemma EnterMeasure<T>(cfg: Config<T>, s: State<T>, r: nat, k: nat)
    requires Shape(cfg, s) && Within(cfg, s.ctl, k) && Useful(cfg, s, DoEnter(r), k)
    requires Shape(cfg, Step(cfg, s, DoEnter(r)))
    ensures Within(cfg, Step(cfg, s, DoEnter(r)).ctl, k)
    ensures Measure(cfg, Step(cfg, s, DoEnter(r)), k) < Measure(cfg, s, k)
  {
    var s' := Step(cfg, s, DoEnter(r));
    assert AtMost(cfg, s.ctl[r], k) && AtMost(cfg, s'.ctl[r], k);
    assert ActionsLeft(cfg, s'.ctl[r], k) + 1 == ActionsLeft(cfg, s.ctl[r], k);
    OneActs(cfg, s.ctl, s'.ctl, k, r, cfg.p);
    assert s'.net.pending == s.net.pending;
  }

  lemma MatchMeasure<T>(cfg: Config<T>, s: State<T>, i: nat, j: nat, k: nat)
    requires Shape(cfg, s) && Within(cfg, s.ctl, k) && Enabled(cfg, s, DoMatch(i, j))
    requires Shape(cfg, Step(cfg, s, DoMatch(i, j)))
    ensures Within(cfg, Step(cfg, s, DoMatch(i, j)).ctl, k)
    ensures Measure(cfg, Step(cfg, s, DoMatch(i, j)), k) < Measure(cfg, s, k)
  {
    var s' := Step(cfg, s, DoMatch(i, j));
    assert |s'.sends| + 1 == |s.sends|;
    assert |s'.net.pending| == |s.net.pending| + 2;
  }

  lemma DeliverMeasure<T>(cfg: Config<T>, s: State<T>, t: Msg, k: nat)
    requires Shape(cfg, s) && Within(cfg, s.ctl, k) && Enabled(cfg, s, DoDeliver(t))
    requires Shape(cfg, Step(cfg, s, DoDeliver(t)))
    ensures Within(cfg, Step(cfg, s, DoDeliver(t)).ctl, k)
    ensures Measure(cfg, Step(cfg, s, DoDeliver(t)), k) < Measure(cfg, s, k)
  {
    var s' := Step(cfg, s, DoDeliver(t));
    var _ := ArriveEffect(cfg, s, t);
    assert s'.net.pending == s.net.pending - multiset{t};
    assert |s'.net.pending| + 1 == |s.net.pending|;
  }

  /** Every step that changes the state lowers the measure, as long as no rank begins more than `k`
      calls: only finitely many steps fit into k calls, whatever their order. */
  lemma MeasureDecreases<T(!new)>(cfg: Config<T>, s: State<T>, a: Action, k: nat)
    requires Reachable(cfg, s) && Shape(cfg, s) && Within(cfg, s.ctl, k) && Useful(cfg, s, a, k)
    ensures Shape(cfg, Step(cfg, s, a)) && Within(cfg, Step(cfg, s, a).ctl, k)
    ensures Measure(cfg, Step(cfg, s, a), k) < Measure(cfg, s, k)
  {
    ReachableInv(cfg, s);
    StepInv(cfg, s, a);
    match a {
      case DoEnter(r) => EnterMeasure(cfg, s, r, k);
      case DoAdvance(r) => AdvanceMeasure(cfg, s, r, k);
      case DoMatch(i, j) => MatchMeasure(cfg, s, i, j, k);
      case DoDeliver(t) => DeliverMeasure(cfg, s, t, k);
    }
  }

  // ----- where runs stop -----

  /** No step of the first `k` calls changes the state. */
  ghost predicate Stopped<T(!new)>(cfg: Config<T>, s: State<T>, k: nat)
    requires Shape(cfg, s)
  {
    forall a :: !Useful(cfg, s, a, k)
  }

  ghost predicate Throws<T>(s: State<T>, r: nat) {
    r < |s.ctl| && s.ctl[r].stage.Thrown?
  }

  ghost predicate SomeThrows<T>(s: State<T>) {
    exists r: nat :: Throws(s, r)
  }

  /** Rank i's block for rank j in one of the first `k` calls is larger than what j expects. */
  ghost predicate TooLarge<T>(cfg: Config<T>, i: nat, j: nat, c: nat, k: nat)
    requires cfg.Valid()
  {
    i < cfg.p && j < cfg.p && c < k && !Fits(cfg, i, j, c)
  }

  ghost predicate SomeTooLarge<T>(cfg: Config<T>, k: nat)
    requires cfg.Valid()
  {
    exists i: nat, j: nat, c: nat :: TooLarge(cfg, i, j, c, k)
  }

  lemma {:induction false} LastEntered<T>(s: State<T>, n: nat) returns (x: nat)
    requires 0 < n <= |s.ctl|
    ensures x < n && forall y :: 0 <= y < n ==> Entered(s, y) >= Entered(s, x)
  {
    if n == 1 {
      x := 0;
    } else {
      x := LastEntered(s, n - 1);
      if Entered(s, n - 1) < Entered(s, x) { x := n - 1; }
    }
  }

  lemma EnterUseful<T>(cfg: Config<T>, s: State<T>, r: nat, k: nat)
    requires Shape(cfg, s) && r < cfg.p && !s.ctl[r].inside && s.ctl[r].calls < k
    ensures Useful(cfg, s, DoEnter(r), k)
  {
    assert Step(cfg, s, DoEnter(r)).ctl[r].inside;
  }

  /** Where no step is left and no rank has thrown, all ranks have returned from `k` calls. */
  lemma StoppedHasReturned<T(!new)>(cfg: Config<T>, s: State<T>, k: nat, z: nat)
    requires Reachable(cfg, s) && Shape(cfg, s) && Within(cfg, s.ctl, k) && Stopped(cfg, s, k) && z < cfg.p
    requires !SomeThrows(s)
    ensures s.ctl[z].calls == k
  {
    assert AtMost(cfg, s.ctl[z], k);
    var x := LastEntered(s, cfg.p);
    if !s.ctl[x].inside && s.ctl[x].calls < k { EnterUseful(cfg, s, x, k); }
    assert AtMost(cfg, s.ctl[x], k);
    var (m, y) := if s.ctl[x].inside then (Entered(s, x), x) else (k, z);
    if s.ctl[y].calls < m {
      NoDeadlock(cfg, s, m, y);
      forall r | 0 <= r < cfg.p ensures !s.ctl[r].stage.Thrown? {
        assert !Throws(s, r);
      }
      var a :| Productive(cfg, s, a);
      assert Useful(cfg, s, a, k);
    }
  }

  /** A rank that has returned from `k` calls has written blocks that fit, in all of them. */
  lemma ReturnedFits<T(!new)>(cfg: Config<T>, s: State<T>, k: nat, i: nat, j: nat, c: nat)
    requires Reachable(cfg, s) && Shape(cfg, s) && i < cfg.p && s.ctl[i].calls == k
    ensures !TooLarge(cfg, i, j, c, k)
  {
    ReachableInv(cfg, s);
    if j < cfg.p && c < k {
      assert ContentsAt(cfg, s, i);
      assert CellsAt(cfg, s, i, j);
      assert c < Passed(cfg, s, i, 2 * cfg.p + j);
    }
  }

  lemma ThrownTooLarge<T(!new)>(cfg: Config<T>, s: State<T>, r: nat)
    requires Reachable(cfg, s) && Shape(cfg, s) && Throws(s, r)
    ensures s.ctl[r].inside && TooLarge(cfg, r, s.ctl[r].i, s.ctl[r].calls, s.ctl[r].calls + 1)
  {
    ReachableInv(cfg, s);
    assert ContentsAt(cfg, s, r);
    assert CellsAt(cfg, s, r, s.ctl[r].i);
  }

  /** Wherever a run of `k` calls stops, some rank has thrown if and only if some block of these calls
      is too large, and otherwise all ranks have returned from all of them. */
  lemma StoppedExactly<T(!new)>(cfg: Config<T>, s: State<T>, k: nat)
    requires Reachable(cfg, s) && Shape(cfg, s) && Within(cfg, s.ctl, k) && Stopped(cfg, s, k)
    ensures SomeThrows(s) <==> SomeTooLarge(cfg, k)
    ensures !SomeThrows(s) ==> forall r :: 0 <= r < cfg.p ==> s.ctl[r].calls == k
  {
    if SomeThrows(s) {
      var r: nat :| Throws(s, r);
      ThrownTooLarge(cfg, s, r);
      assert AtMost(cfg, s.ctl[r], k);
      assert TooLarge(cfg, r, s.ctl[r].i, s.ctl[r].calls, k);
    } else {
      forall z | 0 <= z < cfg.p ensures s.ctl[z].calls == k {
        StoppedHasReturned(cfg, s, k, z);
      }
      forall i: nat, j: nat, c: nat ensures !TooLarge(cfg, i, j, c, k) {
        if i < cfg.p { ReturnedFits(cfg, s, k, i, j, c); }
      }
    }
  }

  // ----- runs that are carried on -----

  lemma LongerRun<T(!new)>(cfg: Config<T>, s: State<T>, s': State<T>)
    requires Reachable(cfg, s) && Transition(cfg, s, s')
    ensures Reachable(cfg, s')
  {
    var run :| IsRun(cfg, run) && run[|run| - 1] == s;
    var longer := run + [s'];
    forall i | 0 <= i < |longer| - 1 ensures Transition(cfg, longer[i], longer[i + 1]) {
      assert i < |run| - 1 ==> Transition(cfg, run[i], run[i + 1]);
    }
    assert IsRun(cfg, longer);
  }

  /** Every run of at most `k` calls can be carried on until it stops. */
  lemma {:induction false} CarryOn<T(!new)>(cfg: Config<T>, s: State<T>, k: nat) returns (s': State<T>)
    requires Reachable(cfg, s) && Shape(cfg, s) && Within(cfg, s.ctl, k)
    ensures Reachable(cfg, s') && Shape(cfg, s') && Within(cfg, s'.ctl, k) && Stopped(cfg, s', k)
    decreases Measure(cfg, s, k)
  {
    if exists a :: Useful(cfg, s, a, k) {
      var a :| Useful(cfg, s, a, k);
      MeasureDecreases(cfg, s, a, k);
      LongerRun(cfg, s, Step(cfg, s, a));
      s' := CarryOn(cfg, Step(cfg, s, a), k);
    } else {
      s' := s;
    }
  }

  /** If every block of the first `k` calls fits, every run of at most `k` calls can be carried on to
      one in which all ranks have returned from all of them. */
  lemma CallsComplete<T(!new)>(cfg: Config<T>, s: State<T>, k: nat) returns (s': State<T>)
    requires Reachable(cfg, s) && Shape(cfg, s) && Within(cfg, s.ctl, k)
    requires !SomeTooLarge(cfg, k)
    ensures Reachable(cfg, s') && Shape(cfg, s') && forall r :: 0 <= r < cfg.p ==> s'.ctl[r].calls == k
  {
    s' := CarryOn(cfg, s, k);
    StoppedExactly(cfg, s', k);
  }

  function Buffers(p: nat): set<Cell> {
    {Source, Target} + (set j | 0 <= j < p :: SendBuf(j)) + (set j | 0 <= j < p :: RecvBuf(j))
  }

  lemma SomeInit<T(!new)>(cfg: Config<T>) returns (s: State<T>)
    requires cfg.Valid()
    ensures Reachable(cfg, s) && Shape(cfg, s) && forall k :: Within(cfg, s.ctl, k)
  {
    var mem: map<Cell, Value<T>> := map c | c in Buffers(cfg.p) :: Flat([]);
    s := State(Net(seq(cfg.p, _ => Process(mem, {})), multiset{}), seq(cfg.p, _ => Control(0, false, PostSend, 0)),
               {}, {}, seq(cfg.p, _ => []));
    assert IsRun(cfg, [s]);
  }

  /** Rank `r` has thrown in one of its first `k` calls. */
  ghost predicate ThrowsWithin<T(!new)>(cfg: Config<T>, s: State<T>, r: nat, k: nat) {
    Reachable(cfg, s) && Shape(cfg, s) && Throws(s, r) && s.ctl[r].calls < k
  }

  /** In some run some rank throws in one of its first `k` calls if and only if some block of these
      calls is too large for the target described to its sender. */
  lemma SomeRunThrowsExactly<T(!new)>(cfg: Config<T>, k: nat)
    requires cfg.Valid()
    ensures (exists s: State<T>, r: nat :: ThrowsWithin(cfg, s, r, k)) <==> SomeTooLarge(cfg, k)
  {
    if SomeTooLarge(cfg, k) {
      var s := ThrowingRun(cfg, k);
      var r: nat :| Throws(s, r);
      ThrownTooLarge(cfg, s, r);
      assert AtMost(cfg, s.ctl[r], k);
      assert ThrowsWithin(cfg, s, r, k);
    } else {
      forall s: State<T>, r: nat ensures !ThrowsWithin(cfg, s, r, k) {
        if ThrowsWithin(cfg, s, r, k) {
          ThrownTooLarge(cfg, s, r);
          assert TooLarge(cfg, r, s.ctl[r].i, s.ctl[r].calls, k);
        }
      }
    }
  }

  lemma ThrowingRun<T(!new)>(cfg: Config<T>, k: nat) returns (s: State<T>)
    requires cfg.Valid() && SomeTooLarge(cfg, k)
    ensures Reachable(cfg, s) && Shape(cfg, s) && Within(cfg, s.ctl, k) && SomeThrows(s)
  {
    var s0 := SomeInit(cfg);
    s := CarryOn(cfg, s0, k);
    StoppedExactly(cfg, s, k);
  }
}
