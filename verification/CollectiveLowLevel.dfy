/** The collective object: every method looks at the state under the mutex, calls its Impl function
    and moves the state on, or throws. */
module CollectiveLowLevel {
  import opened Lifecycle

  datatype Outcome = Done | LogicError

  class Collective {
    var state: Stage
    /** The Impl calls so far. */
    var trace: seq<Impl>

    ghost predicate Valid()
      reads this
    {
      InLanguage(trace, state)
    }

    constructor ()
      ensures Valid() && state == Uninitialized && trace == []
    {
      state, trace := Uninitialized, [];
      new;
      assert trace == Trace(Uninitialized, [], 0);
    }

    method Call(c: Impl)
      requires Valid() && Allowed(state, c)
      modifies this`trace
      ensures trace == old(trace) + [c] && InLanguage(trace, Next(c))
    {
      Extend(trace, state, c);
      trace := trace + [c];
    }

    method WaitForSetup() returns (outcome: Outcome)
      requires Valid()
      modifies this
      ensures Valid()
      ensures old(state) == Uninitialized ==>
                outcome == Done && state == Initialized && trace == old(trace) + [SetupImpl]
      ensures old(state) != Uninitialized ==> outcome == LogicError && unchanged(this)
    {
      if state != Uninitialized { return LogicError; }
      Call(SetupImpl);
      state := Initialized;
      return Done;
    }

    method CopyIn() returns (outcome: Outcome)
      requires Valid()
      modifies this
      ensures Valid()
      ensures old(state) == Initialized ==>
                outcome == Done && state == Ready && trace == old(trace) + [CopyInImpl]
      ensures old(state) != Initialized ==> outcome == LogicError && unchanged(this)
    {
      if state != Initialized { return LogicError; }
      Call(CopyInImpl);
      state := Ready;
      return Done;
    }

    method Start() returns (outcome: Outcome)
      requires Valid()
      modifies this
      ensures Valid()
      ensures old(state) == Ready ==>
                outcome == Done && state == Running && trace == old(trace) + [StartImpl]
      ensures old(state) != Ready ==> outcome == LogicError && unchanged(this)
    {
      if state != Ready { return LogicError; }
      Call(StartImpl);
      state := Running;
      return Done;
    }

    /** `locked`: does the try-lock succeed; `completes`: what triggerProgressImpl would answer. */
    method TriggerProgress(locked: bool, completes: bool) returns (isCompleted: bool)
      requires Valid()
      modifies this
      ensures Valid()
      ensures isCompleted <==> locked && old(state) == Running && completes
      ensures if locked && old(state) == Running then
                trace == old(trace) + [ProgressImpl(completes)] && state == Next(ProgressImpl(completes))
              else trace == old(trace) && state == old(state)
    {
      isCompleted := false;
      if locked {
        if state == Running {
          Call(ProgressImpl(completes));
          isCompleted := completes;
          if isCompleted { state := Finished; }
        }
      }
    }

    method CopyOut() returns (outcome: Outcome)
      requires Valid()
      modifies this
      ensures Valid()
      ensures old(state) == Finished ==>
                outcome == Done && state == Initialized && trace == old(trace) + [CopyOutImpl]
      ensures old(state) != Finished ==> outcome == LogicError && unchanged(this)
    {
      if state != Finished { return LogicError; }
      Call(CopyOutImpl);
      state := Initialized;
      return Done;
    }

    /** A thread on its own: `answers` are the outcomes of its attempts, try-lock and Impl.  It
        returns true exactly if it was running and one of the attempts completed the collective. */
    method WaitForCompletion(answers: seq<(bool, bool)>) returns (thisThreadCompletes: bool)
      requires Valid()
      modifies this
      ensures Valid()
      ensures thisThreadCompletes <==> old(state) == Running && (true, true) in answers
      ensures thisThreadCompletes <==> old(state) == Running && state == Finished
      ensures !thisThreadCompletes ==> state == old(state)
      ensures Completions(trace) == Completions(old(trace)) + if thisThreadCompletes then 1 else 0
    {
      thisThreadCompletes := false;
      var i := 0;
      while !thisThreadCompletes && state == Running && i < |answers|
        invariant i <= |answers| && Valid()
        invariant !thisThreadCompletes ==> state == old(state) && (true, true) !in answers[..i]
        invariant thisThreadCompletes ==> old(state) == Running && state == Finished && (true, true) in answers
        invariant Completions(trace) == Completions(old(trace)) + if thisThreadCompletes then 1 else 0
      {
        ghost var before := trace;
        thisThreadCompletes := TriggerProgress(answers[i].0, answers[i].1);
        assert trace != before ==> trace[..|trace| - 1] == before;
        assert answers[i] in answers && answers[..i + 1] == answers[..i] + [answers[i]];
        i := i + 1;
      }
      assert i == |answers| ==> answers[..i] == answers;
    }
  }

  // ----- the machine -----

  /** A call of one thread while no other has the mutex: it takes the mutex, looks at the state, makes
      its Impl call if the state is right, and gives the mutex back. */
  ghost function Alone(s: State, t: nat, op: Op, completed: bool): State
    requires t < |s.threads| && s.threads[t].Idle? && s.mutex == None && op != Trigger(true)
  {
    var held := Step(Step(s, Lifecycle.Call(t, op)), Lock(t));
    var checked := Step(held, Check(t));
    Step(if checked.threads[t].InImpl? then Step(checked, Return(t, completed)) else checked, Unlock(t))
  }

  /** The thread has looked at the state. */
  lemma AloneChecked(s: State, t: nat, op: Op)
    requires t < |s.threads| && s.threads[t].Idle? && s.mutex == None && op != Trigger(true)
    ensures var held := Step(Step(s, Lifecycle.Call(t, op)), Lock(t));
            && Enabled(held, Check(t))
            && Step(held, Check(t))
               == s.(threads := s.threads[t := if s.stage == Required(op) then InImpl(op) else Releasing(op, None)],
                     mutex := Some(t))
  {
    assert s.threads[t := Entering(op)][t := Holding(op)] == s.threads[t := Holding(op)];
    var th := if s.stage == Required(op) then InImpl(op) else Releasing(op, None);
    assert s.threads[t := Holding(op)][t := th] == s.threads[t := th];
  }

  lemma AloneReturned(s: State, t: nat, op: Op, completed: bool)
    requires t < |s.threads| && s.threads[t].Idle? && s.mutex == None && op != Trigger(true)
    ensures var c := CallOf(op, completed);
            Alone(s, t, op, completed)
            == if s.stage != Required(op) then s
               else s.(stage := Next(c), trace := s.trace + [c],
                       returned := s.returned + if c == ProgressImpl(true) then multiset{Completions(s.trace)}
                                                else multiset{})
  {
    AloneChecked(s, t, op);
    var checked := Step(Step(Step(s, Lifecycle.Call(t, op)), Lock(t)), Check(t));
    var c := CallOf(op, completed);
    var won := if c == ProgressImpl(true) then Some(Completions(s.trace)) else None;
    assert s.threads[t := Idle] == s.threads;
    assert s.threads[t := Releasing(op, None)][t := Idle] == s.threads;
    if s.stage == Required(op) {
      assert s.threads[t := InImpl(op)][t := Releasing(op, won)] == s.threads[t := Releasing(op, won)];
      assert s.threads[t := Releasing(op, won)][t := Idle] == s.threads;
      assert s.returned + multiset{} == s.returned;
    }
  }

  /** What a call does in the machine is what the method of the object does. */
  lemma MethodsAreMachine(s: State, t: nat, op: Op, completed: bool)
    requires t < |s.threads| && s.threads[t].Idle? && s.mutex == None && op != Trigger(true)
    ensures var after := Alone(s, t, op, completed);
            match op
            case Setup =>
              if s.stage != Uninitialized then after == s
              else after.stage == Initialized && after.trace == s.trace + [SetupImpl]
            case CopyIn =>
              if s.stage != Initialized then after == s
              else after.stage == Ready && after.trace == s.trace + [CopyInImpl]
            case Start =>
              if s.stage != Ready then after == s
              else after.stage == Running && after.trace == s.trace + [StartImpl]
            case Trigger(_) =>
              if s.stage != Running then after == s
              else
                && after.stage == (if completed then Finished else Running)
                && after.trace == s.trace + [ProgressImpl(completed)]
                && after.returned == s.returned + if completed then multiset{Completions(s.trace)} else multiset{}
            case CopyOut =>
              if s.stage != Finished then after == s
              else after.stage == Initialized && after.trace == s.trace + [CopyOutImpl]
  {
    AloneReturned(s, t, op, completed);
  }
}
