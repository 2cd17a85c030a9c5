/** Blocking waits: a notification is polled until it is raised, and reset; what the transport
    raises meanwhile arrives one notification at a time. */
module Waiting {

  /** The end of a wait: whether the notification came, the notifications that are raised, and the
      arrivals that have not been seen yet. */
  datatype Waited<S(==)> = Waited(raised: bool, notes: set<S>, rest: seq<S>)

  function AfterWait<S(==)>(slot: S, notes: set<S>, arrivals: seq<S>): Waited<S>
    decreases arrivals
  {
    if slot in notes then Waited(true, notes - {slot}, arrivals)
    else if arrivals == [] then Waited(false, notes, [])
    else AfterWait(slot, notes + {arrivals[0]}, arrivals[1..])
  }

  /** Waits for `slots` one after the other, as far as the arrivals allow. */
  function AfterWaits<S(==)>(slots: seq<S>, notes: set<S>, arrivals: seq<S>): Waited<S> {
    if slots == [] then Waited(true, notes, arrivals)
    else
      var w := AfterWait(slots[0], notes, arrivals);
      if w.raised then AfterWaits(slots[1..], w.notes, w.rest) else w
  }

  /** One more wait. */
  lemma {:induction false} OneMoreWait<S>(slots: seq<S>, last: S, notes: set<S>, arrivals: seq<S>)
    ensures var w := AfterWaits(slots, notes, arrivals);
            AfterWaits(slots + [last], notes, arrivals) == if w.raised then AfterWait(last, w.notes, w.rest) else w
  {
    if slots == [] {
      var v := AfterWait(last, notes, arrivals);
      assert [] + [last] == [last] && [last][1..] == [];
      assert AfterWaits([last], notes, arrivals) == if v.raised then AfterWaits([], v.notes, v.rest) else v;
    } else {
      var v := AfterWait(slots[0], notes, arrivals);
      assert (slots + [last])[1..] == slots[1..] + [last];
      if v.raised { OneMoreWait(slots[1..], last, v.notes, v.rest); }
    }
  }

  lemma TwoWaits<S>(first: S, second: S, notes: set<S>, arrivals: seq<S>)
    ensures var w := AfterWait(first, notes, arrivals);
            AfterWaits([first, second], notes, arrivals) == if w.raised then AfterWait(second, w.notes, w.rest) else w
  {
    assert [] + [first] == [first] && [first] + [second] == [first, second];
    OneMoreWait([], first, notes, arrivals);
    OneMoreWait([first], second, notes, arrivals);
  }

  predicate Coming<S(==)>(x: S, notes: set<S>, arrivals: seq<S>) {
    x in notes || x in arrivals
  }

  /** A wait ends if and only if its notification is raised or will be; it resets that one and loses
      no other. */
  lemma {:induction false} WaitOutcome<S>(slot: S, notes: set<S>, arrivals: seq<S>)
    ensures var w := AfterWait(slot, notes, arrivals);
            && (w.raised <==> Coming(slot, notes, arrivals))
            && slot !in w.notes && (!w.raised ==> w.rest == [])
            && forall x :: x != slot ==> (Coming(x, w.notes, w.rest) <==> Coming(x, notes, arrivals))
    decreases arrivals
  {
    if slot in notes || arrivals == [] {
    } else {
      assert arrivals == [arrivals[0]] + arrivals[1..];
      WaitOutcome(slot, notes + {arrivals[0]}, arrivals[1..]);
    }
  }

  /** Waits for different notifications all end if and only if each of them is raised or will be,
      in whatever order they come; no other notification is lost. */
  lemma {:induction false} AllCome<S>(slots: seq<S>, notes: set<S>, arrivals: seq<S>)
    requires forall i, j :: 0 <= i < j < |slots| ==> slots[i] != slots[j]
    ensures var w := AfterWaits(slots, notes, arrivals);
            && (w.raised <==> forall x :: x in slots ==> Coming(x, notes, arrivals))
            && forall x :: x !in slots ==> (Coming(x, w.notes, w.rest) <==> Coming(x, notes, arrivals))
  {
    if slots == [] {
    } else {
      assert slots == [slots[0]] + slots[1..];
      var w := AfterWait(slots[0], notes, arrivals);
      WaitOutcome(slots[0], notes, arrivals);
      if w.raised {
        assert slots[0] !in slots[1..];
        AllCome(slots[1..], w.notes, w.rest);
      }
    }
  }
}
