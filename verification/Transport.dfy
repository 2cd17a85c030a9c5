/** The one-sided "write and notify" transport under every collective.

    A posted write stays pending until an unordered delivery copies the CURRENT contents of
    its source cell and raises the notification at the destination; a bare notification
    carries no data.  Checking a notification tests and resets it. */
module Transport {

  /** A posted operation.  `C` names the memory cells (buffers) of a process,
      `S` its notification slots. */
  datatype Transfer<C, S> =
    | Write(src: nat, from: C, dst: nat, into: C, slot: S)
    | Notify(dst: nat, slot: S)

  /** The registered memory of one process and the notifications raised in it. */
  datatype Process<C(==), S(==), V> = Process(mem: map<C, V>, notes: set<S>)

  datatype Net<C(==), S(==), V> = Net(procs: seq<Process<C, S, V>>, pending: multiset<Transfer<C, S>>)

  ghost predicate Deliverable<C, S, V>(net: Net<C, S, V>, t: Transfer<C, S>) {
    && t in net.pending
    && t.dst < |net.procs|
    && (t.Write? ==> t.src < |net.procs| && t.from in net.procs[t.src].mem)
  }

  /** Remote completion of one pending transfer, which leaves `mem` at its destination. */
  ghost function Complete<C, S, V>(net: Net<C, S, V>, t: Transfer<C, S>, mem: map<C, V>): Net<C, S, V>
    requires t.dst < |net.procs|
  {
    Net(net.procs[t.dst := Process(mem, net.procs[t.dst].notes + {t.slot})], net.pending - multiset{t})
  }

  /** A write copies a whole cell. */
  ghost function Deliver<C, S, V>(net: Net<C, S, V>, t: Transfer<C, S>): Net<C, S, V>
    requires Deliverable(net, t)
  {
    var mem := net.procs[t.dst].mem;
    Complete(net, t, if t.Write? then mem[t.into := net.procs[t.src].mem[t.from]] else mem)
  }

  /** A rank replaces its own process image and posts transfers. */
  ghost function Act<C, S, V>(net: Net<C, S, V>, r: nat, proc: Process<C, S, V>, posts: seq<Transfer<C, S>>)
    : Net<C, S, V>
    requires r < |net.procs|
  {
    Net(net.procs[r := proc], net.pending + multiset(posts))
  }

  /** `t` reads or writes cell `c` of rank `r` when it is delivered. */
  ghost predicate Touches<C, S>(t: Transfer<C, S>, r: nat, c: C) {
    t.Write? && ((t.src == r && t.from == c) || (t.dst == r && t.into == c))
  }

  // ----- counting messages -----

  /** How often `t` has been posted but not yet consumed: pending, or arrived and still raised. */
  ghost function InFlight<C, S, V>(net: Net<C, S, V>, t: Transfer<C, S>): nat
    requires t.dst < |net.procs|
  {
    net.pending[t] + if t.slot in net.procs[t.dst].notes then 1 else 0
  }

  lemma ActMovement<C, S, V>(net: Net<C, S, V>, r: nat, proc: Process<C, S, V>, posts: seq<Transfer<C, S>>,
                             consumed: set<S>, t: Transfer<C, S>)
    requires r < |net.procs| && t.dst < |net.procs|
    requires consumed <= net.procs[r].notes && proc.notes == net.procs[r].notes - consumed
    ensures InFlight(Act(net, r, proc, posts), t)
            == InFlight(net, t) + multiset(posts)[t] - if t.dst == r && t.slot in consumed then 1 else 0
  {}

  /** Delivery moves a message from pending to raised, if its notification is down and is the
      notification of no other message. */
  lemma DeliverMovement<C, S, V>(net: Net<C, S, V>, t: Transfer<C, S>, u: Transfer<C, S>)
    requires Deliverable(net, t) && t.slot !in net.procs[t.dst].notes && u.dst < |net.procs|
    requires u.dst == t.dst && u.slot == t.slot ==> u == t
    ensures InFlight(Deliver(net, t), u) == InFlight(net, u)
  {
    CompleteMovement(net, t, if t.Write? then net.procs[t.dst].mem[t.into := net.procs[t.src].mem[t.from]]
                             else net.procs[t.dst].mem, u);
  }

  /** The same, whatever the transfer leaves in memory. */
  lemma CompleteMovement<C, S, V>(net: Net<C, S, V>, t: Transfer<C, S>, mem: map<C, V>, u: Transfer<C, S>)
    requires t in net.pending && t.dst < |net.procs| && u.dst < |net.procs|
    requires t.slot !in net.procs[t.dst].notes
    requires u.dst == t.dst && u.slot == t.slot ==> u == t
    ensures InFlight(Complete(net, t, mem), u) == InFlight(net, u)
  {}
}
