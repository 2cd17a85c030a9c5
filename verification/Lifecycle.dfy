/** The lifecycle of a collective under any number of threads: the five states, the mutex, the
    try-lock of triggerProgress and the loop of waitForCompletion. */
module Lifecycle {

  datatype Stage = Uninitialized | Initialized | Ready | Running | Finished

  /** One finished call of an Impl function; a progress call says whether it completed the collective. */
  datatype Impl = SetupImpl | CopyInImpl | StartImpl | ProgressImpl(completed: bool) | CopyOutImpl

  // ----- the language of Impl calls -----

  function Unfinished(n: nat): seq<Impl> {
    if n == 0 then [] else Unfinished(n - 1) + [ProgressImpl(false)]
  }

  /** Whole executions, the i-th with `ns[i]` progress calls before the completing one. */
  function Executions(ns: seq<nat>): seq<Impl> {
    if ns == [] then []
    else Executions(ns[..|ns| - 1]) + [CopyInImpl, StartImpl] + Unfinished(ns[|ns| - 1])
         + [ProgressImpl(true), CopyOutImpl]
  }

  /** setup (copyIn start progress* copyOut)*, cut off where `stage` says; `ns` are the finished
      executions, `n` the progress calls of the current one. */
  function Trace(stage: Stage, ns: seq<nat>, n: nat): seq<Impl> {
    match stage
    case Uninitialized => []
    case Initialized => [SetupImpl] + Executions(ns)
    case Ready => [SetupImpl] + Executions(ns) + [CopyInImpl]
    case Running => [SetupImpl] + Executions(ns) + [CopyInImpl, StartImpl] + Unfinished(n)
    case Finished => [SetupImpl] + Executions(ns) + [CopyInImpl, StartImpl] + Unfinished(n) + [ProgressImpl(true)]
  }

  ghost predicate InLanguage(trace: seq<Impl>, stage: Stage) {
    exists ns, n :: trace == Trace(stage, ns, n)
  }

  predicate Allowed(stage: Stage, c: Impl) {
    match c
    case SetupImpl => stage.Uninitialized?
    case CopyInImpl => stage.Initialized?
    case StartImpl => stage.Ready?
    case ProgressImpl(_) => stage.Running?
    case CopyOutImpl => stage.Finished?
  }

  function Next(c: Impl): Stage {
    match c
    case SetupImpl => Initialized
    case CopyInImpl => Ready
    case StartImpl => Running
    case ProgressImpl(completed) => if completed then Finished else Running
    case CopyOutImpl => Initialized
  }

  /** An allowed call keeps the trace in the language. */
  lemma Extend(trace: seq<Impl>, stage: Stage, c: Impl)
    requires InLanguage(trace, stage) && Allowed(stage, c)
    ensures InLanguage(trace + [c], Next(c))
  {
    var ns, n :| trace == Trace(stage, ns, n);
    match c {
      case SetupImpl => assert trace + [c] == Trace(Initialized, [], n);
      case CopyInImpl => assert trace + [c] == Trace(Ready, ns, n);
      case StartImpl => assert trace + [c] == Trace(Running, ns, 0);
      case ProgressImpl(completed) =>
        assert trace + [c] == if completed then Trace(Finished, ns, n) else Trace(Running, ns, n + 1);
      case CopyOutImpl =>
        assert (ns + [n])[..|ns|] == ns;
        assert trace + [c] == Trace(Initialized, ns + [n], n);
    }
  }

  function Completions(trace: seq<Impl>): nat {
    if trace == [] then 0
    else Completions(trace[..|trace| - 1]) + if trace[|trace| - 1] == ProgressImpl(true) then 1 else 0
  }

  // ----- the threads -----

  /** `Trigger(true)` is the triggerProgress call inside waitForCompletion. */
  datatype Op = Setup | CopyIn | Start | Trigger(waiting: bool) | CopyOut

  datatype Option<T> = None | Some(value: T)

  /** `Entering`: about to take the mutex; `Holding`: has it, has not looked at the state yet;
      `InImpl`: inside the Impl function; `Releasing`: about to return, with the number of the
      execution it has completed, if any; `Polling`: at the head of waitForCompletion's loop. */
  datatype Thread =
    | Idle | Entering(op: Op) | Holding(op: Op) | InImpl(op: Op) | Releasing(op: Op, won: Option<nat>) | Polling

  /** `returned` and `waits`: the executions for which a triggerProgress, or a waitForCompletion, has
      returned true. */
  datatype State = State(stage: Stage, mutex: Option<nat>, threads: seq<Thread>, trace: seq<Impl>,
                         returned: multiset<nat>, waits: multiset<nat>)

  datatype Action =
    | Call(t: nat, op: Op) | CallWait(t: nat) | Poll(t: nat) | Lock(t: nat) | TryLockFails(t: nat)
    | Check(t: nat) | Return(t: nat, completed: bool) | Unlock(t: nat)

  function Required(op: Op): Stage {
    match op
    case Setup => Uninitialized
    case CopyIn => Initialized
    case Start => Ready
    case Trigger(_) => Running
    case CopyOut => Finished
  }

  function CallOf(op: Op, completed: bool): Impl {
    match op
    case Setup => SetupImpl
    case CopyIn => CopyInImpl
    case Start => StartImpl
    case Trigger(_) => ProgressImpl(completed)
    case CopyOut => CopyOutImpl
  }

  ghost predicate Enabled(s: State, a: Action) {
    && a.t < |s.threads|
    && var th := s.threads[a.t];
       match a
       case Call(_, op) => th.Idle? && op != Trigger(true)
       case CallWait(_) => th.Idle?
       case Poll(_) => th.Polling?
       case Lock(_) => th.Entering? && s.mutex == None
       case TryLockFails(_) => th.Entering? && th.op.Trigger?
       case Check(_) => th.Holding?
       case Return(_, completed) => th.InImpl?
       case Unlock(_) => th.Releasing?
  }

  function Leave(op: Op, won: bool): Thread {
    if op == Trigger(true) && !won then Polling else Idle
  }

  ghost function Step(s: State, a: Action): State
    requires Enabled(s, a)
  {
    var t, th := a.t, s.threads[a.t];
    match a
    case Call(_, op) => s.(threads := s.threads[t := Entering(op)])
    case CallWait(_) => s.(threads := s.threads[t := Polling])
    case Poll(_) => s.(threads := s.threads[t := if s.stage.Running? then Entering(Trigger(true)) else Idle])
    case Lock(_) => s.(threads := s.threads[t := Holding(th.op)], mutex := Some(t))
    case TryLockFails(_) => s.(threads := s.threads[t := Leave(th.op, false)])
    case Check(_) =>
      s.(threads := s.threads[t := if s.stage == Required(th.op) then InImpl(th.op) else Releasing(th.op, None)])
    case Return(_, completed) =>
      var c := CallOf(th.op, completed);
      s.(stage := Next(c), trace := s.trace + [c],
         threads := s.threads[t := Releasing(th.op, if c == ProgressImpl(true) then Some(Completions(s.trace))
                                             else None)])
    case Unlock(_) =>
      s.(mutex := None, threads := s.threads[t := Leave(th.op, th.won.Some?)],
         returned := if th.won.Some? then s.returned + multiset{th.won.value} else s.returned,
         waits := if th.won.Some? && th.op == Trigger(true) then s.waits + multiset{th.won.value} else s.waits)
  }

  ghost predicate Init(s: State) {
    && s.stage.Uninitialized? && s.mutex == None && s.trace == [] && s.returned == multiset{} && s.waits == multiset{}
    && forall t :: 0 <= t < |s.threads| ==> s.threads[t].Idle?
  }

  ghost predicate Transition(s: State, s': State) {
    exists a :: Enabled(s, a) && s' == Step(s, a)
  }

  ghost predicate IsRun(run: seq<State>) {
    && 0 < |run|
    && Init(run[0])
    && forall i :: 0 <= i < |run| - 1 ==> Transition(run[i], run[i + 1])
  }

  ghost predicate Reachable(s: State) {
    exists run :: IsRun(run) && run[|run| - 1] == s
  }

  // ----- the invariant -----

  /** Between taking and giving back the mutex. */
  predicate Inside(th: Thread) {
    th.Holding? || th.InImpl? || th.Releasing?
  }

  /** The execution whose completion is about to be returned. */
  ghost predicate Winning(s: State, k: nat) {
    && s.mutex.Some? && s.mutex.value < |s.threads|
    && s.threads[s.mutex.value].Releasing? && s.threads[s.mutex.value].won == Some(k)
  }

  ghost predicate WonOnce(s: State, k: nat) {
    s.returned[k] + (if Winning(s, k) then 1 else 0) == if k < Completions(s.trace) then 1 else 0
  }

  ghost predicate Inv(s: State) {
    && InLanguage(s.trace, s.stage)
    && (forall t :: 0 <= t < |s.threads| ==> (Inside(s.threads[t]) <==> s.mutex == Some(t)))
    && (s.mutex.Some? ==> s.mutex.value < |s.threads|)
    && (forall t :: 0 <= t < |s.threads| && s.threads[t].InImpl? ==> s.stage == Required(s.threads[t].op))
    && (forall k: nat :: WonOnce(s, k))
    && s.waits <= s.returned
  }

  lemma InitInv(s: State)
    requires Init(s)
    ensures Inv(s)
  {
    assert s.trace == Trace(Uninitialized, [], 0);
  }

  lemma ReturnInv(s: State, t: nat, completed: bool)
    requires Inv(s) && Enabled(s, Return(t, completed))
    ensures Inv(Step(s, Return(t, completed)))
  {
    var s', c := Step(s, Return(t, completed)), CallOf(s.threads[t].op, completed);
    Extend(s.trace, s.stage, c);
    forall k: nat ensures WonOnce(s', k) {
      assert WonOnce(s, k);
      ReturnWins(s, t, completed, k);
    }
  }

  lemma ReturnWins(s: State, t: nat, completed: bool, k: nat)
    requires WonOnce(s, k) && Enabled(s, Return(t, completed)) && s.mutex == Some(t)
    ensures WonOnce(Step(s, Return(t, completed)), k)
  {
    var s' := Step(s, Return(t, completed));
    assert s'.trace[..|s'.trace| - 1] == s.trace;
  }

  lemma UnlockInv(s: State, t: nat)
    requires Inv(s) && Enabled(s, Unlock(t))
    ensures Inv(Step(s, Unlock(t)))
  {
    forall k: nat ensures WonOnce(Step(s, Unlock(t)), k) {
      assert WonOnce(s, k);
    }
  }

  lemma StepInv(s: State, a: Action)
    requires Inv(s) && Enabled(s, a)
    ensures Inv(Step(s, a))
  {
    match a {
      case Return(t, completed) => ReturnInv(s, t, completed);
      case Unlock(t) => UnlockInv(s, t);
      case _ => OtherInv(s, a);
    }
  }

  /** The actions that change neither the trace nor the completions returned. */
  lemma OtherInv(s: State, a: Action)
    requires Inv(s) && Enabled(s, a) && !a.Return? && !a.Unlock?
    ensures Inv(Step(s, a))
  {
    forall k: nat ensures WonOnce(Step(s, a), k) {
      assert WonOnce(s, k);
      OtherWins(s, a, k);
    }
  }

  lemma OtherWins(s: State, a: Action, k: nat)
    requires Enabled(s, a) && !a.Return? && !a.Unlock? && WonOnce(s, k)
    requires forall t :: 0 <= t < |s.threads| ==> (Inside(s.threads[t]) <==> s.mutex == Some(t))
    ensures WonOnce(Step(s, a), k)
  {
    assert Winning(Step(s, a), k) <==> Winning(s, k);
  }

  lemma {:induction false} RunInv(run: seq<State>, n: nat)
    requires IsRun(run) && n < |run|
    ensures Inv(run[n])
  {
    if n == 0 {
      InitInv(run[0]);
    } else {
      RunInv(run, n - 1);
      assert Transition(run[n - 1], run[n - 1 + 1]);
      var a :| Enabled(run[n - 1], a) && run[n] == Step(run[n - 1], a);
      StepInv(run[n - 1], a);
    }
  }

  lemma ReachableInv(s: State)
    requires Reachable(s)
    ensures Inv(s)
  {
    var run :| IsRun(run) && run[|run| - 1] == s;
    RunInv(run, |run| - 1);
  }

  // ----- the results -----

  /** Whatever the threads do, the finished Impl calls are setup (copyIn start progress* copyOut)*,
      cut off where the state says. */
  lemma CallsFollowLifecycle(s: State)
    requires Reachable(s)
    ensures exists ns, n :: s.trace == Trace(s.stage, ns, n)
  {
    ReachableInv(s);
  }

  /** Impl calls never overlap. */
  lemma ImplsExclude(s: State, t: nat, u: nat)
    requires Reachable(s) && t < |s.threads| && u < |s.threads| && s.threads[t].InImpl? && s.threads[u].InImpl?
    ensures t == u
  {
    ReachableInv(s);
    assert Inside(s.threads[t]) && Inside(s.threads[u]);
  }

  /** Every completed execution is announced by exactly one triggerProgress call that returns true
      (or is just about to), and by at most one waitForCompletion. */
  lemma CompletionAnnouncedOnce(s: State, k: nat)
    requires Reachable(s)
    ensures s.returned[k] <= 1 && s.waits[k] <= s.returned[k]
    ensures k >= Completions(s.trace) ==> s.returned[k] == 0
    ensures k < Completions(s.trace) && s.mutex == None ==> s.returned[k] == 1
  {
    ReachableInv(s);
    assert WonOnce(s, k);
  }

  /** The mutex is never stuck: whoever holds it can go on. */
  lemma HolderMoves(s: State)
    requires Reachable(s) && s.mutex.Some?
    ensures exists a :: Enabled(s, a) && a.t == s.mutex.value && (a.Check? || a.Return? || a.Unlock?)
  {
    ReachableInv(s);
    var t := s.mutex.value;
    assert Inside(s.threads[t]);
    match s.threads[t] {
      case Holding(_) => assert Enabled(s, Check(t));
      case InImpl(_) => assert Enabled(s, Return(t, true));
      case Releasing(_, _) => assert Enabled(s, Unlock(t));
    }
  }
}
