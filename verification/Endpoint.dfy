/** The passive service of one process, which matches offers with requests, and the endpoints that
    connect through it. */
module Endpoint {
  import opened FreeList
  import opened Descriptions
  import opened Rendezvous
  import opened Serialization
  import Notifications = NotificationManager
  import Serializer

  /** A request for a description, on its way to process `destination`. */
  datatype RequestMessage = RequestMessage(destination: nat, tag: int, buffer: BufferDescription)

  /** What the passive service does through its communication context, in order. */
  datatype Operation =
    | Written(source: BufferDescription, target: BufferDescription)
    | Flushed
    | Notified(source: BufferDescription)

  /** The operations of one match. */
  function Exchange(src: BufferDescription, rcv: BufferDescription): seq<Operation> {
    [Written(src, rcv), Flushed, Notified(src), Flushed]
  }

  function Operations(reply: Reply<BufferDescription>): seq<Operation> {
    match reply
    case Match(src, rcv) => Exchange(src, rcv)
    case _ => []
  }

  /** The owner of a source buffer is told that its buffer is free only after the write out of it
      has been flushed. */
  ghost predicate Orderly(log: seq<Operation>) {
    forall n :: 0 <= n < |log| && log[n].Notified? ==>
                  exists m, f :: 0 <= m < f < n && log[m].Written? && log[m].source == log[n].source && log[f].Flushed?
  }

  lemma ExchangeKeepsOrder(log: seq<Operation>, src: BufferDescription, rcv: BufferDescription)
    requires Orderly(log)
    ensures Orderly(log + Exchange(src, rcv))
  {
    var longer := log + Exchange(src, rcv);
    forall n | 0 <= n < |longer| && longer[n].Notified?
      ensures exists m, f ::
        0 <= m < f < n && longer[m].Written? && longer[m].source == longer[n].source && longer[f].Flushed?
    {
      if n < |log| {
        var m, f :| 0 <= m < f < n && log[m].Written? && log[m].source == log[n].source && log[f].Flushed?;
        assert longer[m] == log[m] && longer[f] == log[f];
      } else {
        assert longer[|log|] == Written(src, rcv) && longer[|log| + 1] == Flushed && n == |log| + 2;
      }
    }
  }

  // ----- what the operations do -----

  /** The writes of a log: which description goes into which buffer. */
  function Writes(log: seq<Operation>): multiset<(BufferDescription, BufferDescription)> {
    if log == [] then multiset{}
    else
      var last := log[|log| - 1];
      Writes(log[..|log| - 1]) + if last.Written? then multiset{(last.source, last.target)} else multiset{}
  }

  /** The owners of send buffers that are told. */
  function Told(log: seq<Operation>): multiset<BufferDescription> {
    if log == [] then multiset{}
    else
      var last := log[|log| - 1];
      Told(log[..|log| - 1]) + if last.Notified? then multiset{last.source} else multiset{}
  }

  lemma OneMoreOperation(log: seq<Operation>, o: Operation)
    ensures Writes(log + [o]) == Writes(log) + if o.Written? then multiset{(o.source, o.target)} else multiset{}
    ensures Told(log + [o]) == Told(log) + if o.Notified? then multiset{o.source} else multiset{}
  {
    assert (log + [o])[..|log|] == log;
  }

  /** A match writes once, from the offer's buffer into the request's, and tells the owner of the offer once,
      after that write has been flushed; anything else does nothing. */
  lemma OperationsAre(log: seq<Operation>, reply: Reply<BufferDescription>)
    ensures var after := log + Operations(reply);
            if reply.Match? then
              && Writes(after) == Writes(log) + multiset{(reply.src, reply.rcv)}
              && Told(after) == Told(log) + multiset{reply.src}
              && exists m, f, n ::
                   && |log| <= m < f < n < |after| && after[m] == Written(reply.src, reply.rcv)
                   && after[f].Flushed? && after[n] == Notified(reply.src)
            else after == log
  {
    if reply.Match? {
      var operations := Operations(reply);
      var l1 := log + [operations[0]];
      var l2 := l1 + [operations[1]];
      var l3 := l2 + [operations[2]];
      OneMoreOperation(log, operations[0]);
      OneMoreOperation(l1, operations[1]);
      OneMoreOperation(l2, operations[2]);
      OneMoreOperation(l3, operations[3]);
      var after := log + operations;
      assert after == l3 + [operations[3]];
      assert after[|log|] == operations[0] && after[|log| + 1] == operations[1] && after[|log| + 2] == operations[2];
    } else {
      assert log + [] == log;
    }
  }

  // ----- the machine -----

  /** Where the connect handles of the endpoints have their send and receive buffers; `sender` and
      `receiver` say whose a buffer is. */
  datatype Places = Places(send: Id -> BufferDescription, recv: Id -> BufferDescription,
                           sender: BufferDescription -> Id, receiver: BufferDescription -> Id) {
    ghost predicate Valid() {
      forall e :: sender(send(e)) == e && receiver(recv(e)) == e
    }
  }

  /** The queues of the machine, with the buffers of the endpoints in place of the endpoints. */
  ghost function PlacedQueues(pl: Places, q: Queues<Id>): Queues<BufferDescription> {
    Queues(map k | k in q.srcs :: pl.send(q.srcs[k]), map k | k in q.rcvs :: pl.recv(q.rcvs[k]))
  }

  function PlacedReply(pl: Places, reply: Reply<Id>): Reply<BufferDescription> {
    match reply
    case Match(src, rcv) => Match(pl.send(src), pl.recv(rcv))
    case Queued => Queued
    case Duplicate => Duplicate
  }

  lemma PlacedWithout(pl: Places, q: Queues<Id>, key: Key)
    ensures PlacedQueues(pl, q.(rcvs := q.rcvs - {key})).rcvs == PlacedQueues(pl, q).rcvs - {key}
    ensures PlacedQueues(pl, q.(srcs := q.srcs - {key})).srcs == PlacedQueues(pl, q).srcs - {key}
  {}

  lemma PlacedWith(pl: Places, q: Queues<Id>, key: Key, e: Id)
    ensures PlacedQueues(pl, q.(rcvs := q.rcvs[key := e])).rcvs == PlacedQueues(pl, q).rcvs[key := pl.recv(e)]
    ensures PlacedQueues(pl, q.(srcs := q.srcs[key := e])).srcs == PlacedQueues(pl, q).srcs[key := pl.send(e)]
  {}

  /** What the passive service does with the buffers of an endpoint is what the machine does with the
      endpoint. */
  lemma HandlersSimulate(pl: Places, q: Queues<Id>, key: Key, e: Id)
    ensures HandleSrc(PlacedQueues(pl, q), key, pl.send(e))
            == (PlacedQueues(pl, HandleSrc(q, key, e).0), PlacedReply(pl, HandleSrc(q, key, e).1))
    ensures HandleRcv(PlacedQueues(pl, q), key, pl.recv(e))
            == (PlacedQueues(pl, HandleRcv(q, key, e).0), PlacedReply(pl, HandleRcv(q, key, e).1))
  {
    PlacedWithout(pl, q, key);
    PlacedWith(pl, q, key, e);
  }

  /** The effect of an operation on the machine: a write puts what the send buffer holds on its way to the
      owner of the receive buffer, a notification the news that the send buffer is free on its way to its
      owner. */
  ghost function Carry<D>(pl: Places, s: State<D>, o: Operation): State<D> {
    match o
    case Written(source, target) =>
      var src := pl.sender(source);
      if src in s.sendBuf then
        s.(descriptions := s.descriptions + multiset{(pl.receiver(target), s.sendBuf[src])})
      else s
    case Flushed => s
    case Notified(source) => s.(sentNotes := s.sentNotes + multiset{pl.sender(source)})
  }

  ghost function CarryAll<D>(pl: Places, s: State<D>, log: seq<Operation>): State<D> {
    if log == [] then s else Carry(pl, CarryAll(pl, s, log[..|log| - 1]), log[|log| - 1])
  }

  lemma CarryOne<D>(pl: Places, s: State<D>, log: seq<Operation>, o: Operation)
    ensures CarryAll(pl, s, log + [o]) == Carry(pl, CarryAll(pl, s, log), o)
  {
    assert (log + [o])[..|log|] == log;
  }

  lemma CarryTwo<D>(pl: Places, s: State<D>, o: Operation, o': Operation)
    ensures CarryAll(pl, s, [o, o']) == Carry(pl, Carry(pl, s, o), o')
  {
    CarryOne(pl, s, [], o);
    CarryOne(pl, s, [o], o');
    assert [] + [o] == [o] && [o] + [o'] == [o, o'];
  }

  /** At a match of the machine the operations of the passive service have exactly the machine's effect; at
      no other reply do they have any. */
  lemma OperationsCommunicate<D>(pl: Places, s: State<D>, reply: Reply<Id>)
    requires pl.Valid() && (reply.Match? ==> reply.src in s.sendBuf)
    ensures CarryAll(pl, s, Operations(PlacedReply(pl, reply)))
            == if reply.Match? then Communicate(s, reply) else s
  {
    if reply.Match? {
      var log := Operations(PlacedReply(pl, reply));
      CarryTwo(pl, s, log[0], log[1]);
      CarryOne(pl, s, log[..2], log[2]);
      CarryOne(pl, s, log[..3], log[3]);
      assert [log[0], log[1]] == log[..2] && log[..2] + [log[2]] == log[..3] && log[..3] + [log[3]] == log;
    }
  }

  class Passive {
    const globalRank: nat
    var srcTargetBuffers: map<Key, BufferDescription>
    var rcvTargetBuffers: map<Key, BufferDescription>
    /** The operations that have been carried out. */
    var log: seq<Operation>
    var sentPassive: seq<RequestMessage>

    constructor (rank: nat)
      ensures globalRank == rank && View() == Queues(map[], map[]) && log == [] && sentPassive == [] && Valid()
    {
      globalRank := rank;
      srcTargetBuffers, rcvTargetBuffers, log, sentPassive := map[], map[], [], [];
    }

    ghost predicate Valid()
      reads this`log
    {
      Orderly(log)
    }

    ghost function View(): Queues<BufferDescription>
      reads this`srcTargetBuffers, this`rcvTargetBuffers
    {
      Queues(srcTargetBuffers, rcvTargetBuffers)
    }

    method ISendRecvComm(src: BufferDescription, rcv: BufferDescription)
      requires Valid()
      modifies this`log
      ensures Valid() && log == old(log) + [Written(src, rcv), Flushed, Notified(src), Flushed]
    {
      ExchangeKeepsOrder(log, src, rcv);
      log := log + [Written(src, rcv)];
      log := log + [Flushed];
      log := log + [Notified(src)];
      log := log + [Flushed];
      assert log == old(log) + [Written(src, rcv), Flushed, Notified(src), Flushed];
    }

    /** Returns false where the key is already queued. */
    method HandleTaggedSrcBufferDesc(rank: nat, tag: int, src: BufferDescription) returns (ok: bool)
      requires Valid()
      modifies this`srcTargetBuffers, this`rcvTargetBuffers, this`log
      ensures var (after, reply) := HandleSrc(old(View()), Key(tag, rank), src);
              Valid() && View() == after && log == old(log) + Operations(reply) && (ok <==> !reply.Duplicate?)
      ensures if Key(tag, rank) in old(rcvTargetBuffers) then
                && Writes(log) == old(Writes(log)) + multiset{(src, old(rcvTargetBuffers)[Key(tag, rank)])}
                && Told(log) == old(Told(log)) + multiset{src}
              else log == old(log)
    {
      var key := Key(tag, rank);
      OperationsAre(log, HandleSrc(View(), key, src).1);
      ok := true;
      if key in rcvTargetBuffers {
        var rcv := rcvTargetBuffers[key];
        rcvTargetBuffers := rcvTargetBuffers - {key};
        ISendRecvComm(src, rcv);
      } else if key in srcTargetBuffers {
        ok := false;
      } else {
        srcTargetBuffers := srcTargetBuffers[key := src];
      }
    }

    method HandleTaggedRcvBufferDesc(rank: nat, tag: int, rcv: BufferDescription) returns (ok: bool)
      requires Valid()
      modifies this`srcTargetBuffers, this`rcvTargetBuffers, this`log
      ensures var (after, reply) := HandleRcv(old(View()), Key(tag, rank), rcv);
              Valid() && View() == after && log == old(log) + Operations(reply) && (ok <==> !reply.Duplicate?)
      ensures if Key(tag, rank) in old(srcTargetBuffers) then
                && Writes(log) == old(Writes(log)) + multiset{(old(srcTargetBuffers)[Key(tag, rank)], rcv)}
                && Told(log) == old(Told(log)) + multiset{old(srcTargetBuffers)[Key(tag, rank)]}
              else log == old(log)
    {
      var key := Key(tag, rank);
      OperationsAre(log, HandleRcv(View(), key, rcv).1);
      ok := true;
      if key in srcTargetBuffers {
        var src := srcTargetBuffers[key];
        srcTargetBuffers := srcTargetBuffers - {key};
        ISendRecvComm(src, rcv);
      } else if key in rcvTargetBuffers {
        ok := false;
      } else {
        rcvTargetBuffers := rcvTargetBuffers[key := rcv];
      }
    }

    /** A request to the own process is handled at once, one to another process is sent there. */
    method IRecvTagMessg(rank: nat, tag: int, rcv: BufferDescription) returns (ok: bool)
      requires Valid()
      modifies this`srcTargetBuffers, this`rcvTargetBuffers, this`log, this`sentPassive
      ensures rank == globalRank ==>
                var (after, reply) := HandleRcv(old(View()), Key(tag, rank), rcv);
                && Valid() && View() == after && log == old(log) + Operations(reply) && (ok <==> !reply.Duplicate?)
                && sentPassive == old(sentPassive)
      ensures rank == globalRank ==>
                if Key(tag, rank) in old(srcTargetBuffers) then
                  && Writes(log) == old(Writes(log)) + multiset{(old(srcTargetBuffers)[Key(tag, rank)], rcv)}
                  && Told(log) == old(Told(log)) + multiset{old(srcTargetBuffers)[Key(tag, rank)]}
                else log == old(log)
      ensures rank != globalRank ==>
                && ok && Valid() && View() == old(View()) && log == old(log)
                && sentPassive == old(sentPassive) + [RequestMessage(rank, tag, rcv)]
    {
      ok := true;
      if rank == globalRank {
        ok := HandleTaggedRcvBufferDesc(rank, tag, rcv);
      } else {
        sentPassive := sentPassive + [RequestMessage(rank, tag, rcv)];
      }
    }

    /** The passive thread's branch for a request received from process `sender`. */
    method ReceiveRequest(sender: nat, message: RequestMessage) returns (ok: bool)
      requires Valid()
      modifies this`srcTargetBuffers, this`rcvTargetBuffers, this`log
      ensures var (after, reply) := HandleRcv(old(View()), Key(message.tag, sender), message.buffer);
              Valid() && View() == after && log == old(log) + Operations(reply) && (ok <==> !reply.Duplicate?)
      ensures var key := Key(message.tag, sender);
              if key in old(srcTargetBuffers) then
                && Writes(log) == old(Writes(log)) + multiset{(old(srcTargetBuffers)[key], message.buffer)}
                && Told(log) == old(Told(log)) + multiset{old(srcTargetBuffers)[key]}
              else log == old(log)
    {
      ok := HandleTaggedRcvBufferDesc(sender, message.tag, message.buffer);
    }
  }

  const TAG_MAX := 0x7fff_ffff_ffff_ffff

  datatype Connect = Connected(sendTag: int, recvTag: int) | NotInGroup | TagOutOfBounds | AlreadyPosted

  class Endpoint<T> {
    const memory: array<T>
    const notification: nat
    const role: Role
    const localBufferDesc: BufferDescription
    var otherBufferDesc: Option<BufferDescription>
    var isConnected: bool

    constructor (memory: array<T>, notification: nat, role: Role, description: BufferDescription)
      ensures this.memory == memory && this.notification == notification && this.role == role
      ensures localBufferDesc == description && !isConnected && otherBufferDesc == None
    {
      this.memory, this.notification, this.role, this.localBufferDesc := memory, notification, role, description;
      this.otherBufferDesc, this.isConnected := None, false;
    }

    method SetRemotePartner(partner: BufferDescription)
      modifies this`otherBufferDesc, this`isConnected
      ensures isConnected && otherBufferDesc == Some(partner)
    {
      otherBufferDesc := Some(partner);
      isConnected := true;
    }

    /** iSendTagMessg, and then iRecvTagMessg unless the offer is already there. */
    method OfferAndAsk(passive: Passive, globalRank: nat, sendTag: int, recvTag: int, sendBuffer: BufferDescription,
                       recvBuffer: BufferDescription)
      returns (ok: bool)
      requires passive.Valid()
      modifies passive
      ensures passive.Valid()
      ensures globalRank != passive.globalRank ==>
                var (offered, reply) := HandleSrc(old(passive.View()), Key(sendTag, globalRank), sendBuffer);
                && passive.View() == offered && passive.log == old(passive.log) + Operations(reply)
                && (ok <==> !reply.Duplicate?)
                && passive.sentPassive == old(passive.sentPassive)
                                          + if ok then [RequestMessage(globalRank, recvTag, recvBuffer)] else []
      ensures globalRank != passive.globalRank ==>
                var key, requests := Key(sendTag, globalRank), old(passive.rcvTargetBuffers);
                if key in requests then
                  && Writes(passive.log) == old(Writes(passive.log)) + multiset{(sendBuffer, requests[key])}
                  && Told(passive.log) == old(Told(passive.log)) + multiset{sendBuffer}
                else passive.log == old(passive.log)
      ensures globalRank == passive.globalRank ==>
                var (offered, reply) := HandleSrc(old(passive.View()), Key(sendTag, globalRank), sendBuffer);
                var (asked, answer) := HandleRcv(offered, Key(recvTag, globalRank), recvBuffer);
                && passive.sentPassive == old(passive.sentPassive) && (ok <==> !reply.Duplicate? && !answer.Duplicate?)
                && (if reply.Duplicate? then passive.View() == offered && passive.log == old(passive.log)
                    else passive.View() == asked
                         && passive.log == old(passive.log) + Operations(reply) + Operations(answer))
    {
      ok := passive.HandleTaggedSrcBufferDesc(globalRank, sendTag, sendBuffer);
      if ok { ok := passive.IRecvTagMessg(globalRank, recvTag, recvBuffer); }
    }

    /** Offers the own description under the tag of this role and asks for the partner's under the
        complementary one.  `group` lists the global ranks of the group; `sendBuffer` and
        `recvBuffer` describe the buffers of the connect handle. */
    method ConnectToRemotePartner(passive: Passive, group: seq<nat>, rank: nat, tag: int,
                                  sendBuffer: BufferDescription, recvBuffer: BufferDescription)
      returns (c: Connect)
      requires passive.Valid()
      modifies passive
      ensures passive.Valid()
      ensures c.NotInGroup? <==> rank >= |group|
      ensures c.TagOutOfBounds? <==> rank < |group| && tag >= TAG_MAX / 3
      ensures c.NotInGroup? || c.TagOutOfBounds? ==> unchanged(passive)
      ensures c.Connected? ==> c.sendTag == SendTag(role, tag) && c.recvTag == RecvTag(role, tag)
      ensures rank < |group| && tag < TAG_MAX / 3 && group[rank] != passive.globalRank ==>
                var (offered, reply) := HandleSrc(old(passive.View()), Key(SendTag(role, tag), group[rank]),
                                                  sendBuffer);
                && passive.View() == offered && passive.log == old(passive.log) + Operations(reply)
                && (c.Connected? <==> !reply.Duplicate?)
                && passive.sentPassive
                   == old(passive.sentPassive)
                      + if c.Connected? then [RequestMessage(group[rank], RecvTag(role, tag), recvBuffer)] else []
      ensures rank < |group| && tag < TAG_MAX / 3 && group[rank] == passive.globalRank ==>
                var (offered, reply) := HandleSrc(old(passive.View()), Key(SendTag(role, tag), group[rank]),
                                                  sendBuffer);
                var (asked, answer) := HandleRcv(offered, Key(RecvTag(role, tag), group[rank]), recvBuffer);
                && passive.sentPassive == old(passive.sentPassive)
                && (c.Connected? <==> !reply.Duplicate? && !answer.Duplicate?)
                && (if reply.Duplicate? then passive.View() == offered && passive.log == old(passive.log)
                    else passive.View() == asked
                         && passive.log == old(passive.log) + Operations(reply) + Operations(answer))
      ensures rank < |group| && tag < TAG_MAX / 3 && group[rank] != passive.globalRank ==>
                var key, requests := Key(SendTag(role, tag), group[rank]), old(passive.rcvTargetBuffers);
                if key in requests then
                  && Writes(passive.log) == old(Writes(passive.log)) + multiset{(sendBuffer, requests[key])}
                  && Told(passive.log) == old(Told(passive.log)) + multiset{sendBuffer}
                else passive.log == old(passive.log)
    {
      if rank >= |group| { return NotInGroup; }
      if tag >= TAG_MAX / 3 { return TagOutOfBounds; }
      var sendTag, recvTag := 3 * tag, 3 * tag;
      match role {
        case Source => sendTag, recvTag := sendTag + 1, recvTag + 2;
        case Target => sendTag, recvTag := sendTag + 2, recvTag + 1;
        case Generic =>
      }
      var ok := OfferAndAsk(passive, group[rank], sendTag, recvTag, sendBuffer, recvBuffer);
      c := if ok then Connected(sendTag, recvTag) else AlreadyPosted;
    }
  }

  /** What reaches the buffers of a connect handle: the bytes of the partner's description, or the
      notification that the own description has left. */
  datatype Arrival = DescriptionArrived(bytes: seq<byte>) | OfferLeft

  ghost predicate Announced(arrivals: seq<Arrival>) {
    exists a :: a in arrivals && a.DescriptionArrived?
  }

  class ConnectHandle<T> {
    const endpoint: Endpoint<T>
    var recvBuffer: seq<byte>
    /** The notifications of the receive buffer and of the send buffer. */
    var received: bool
    var left: bool

    constructor (endpoint: Endpoint<T>)
      ensures this.endpoint == endpoint && !received && !left
    {
      this.endpoint, this.recvBuffer, this.received, this.left := endpoint, [], false, false;
    }

    /** Every description that reaches the receive buffer is `partner`, serialized. */
    ghost predicate Brings(w: Serializer.Widths, partner: BufferDescription, arrivals: seq<Arrival>)
      reads this`recvBuffer, this`received
    {
      && Serializer.Fits(w, partner)
      && (received ==> recvBuffer == Serializer.SerializeDescription(w, partner))
      && forall a :: a in arrivals && a.DescriptionArrived? ==> a.bytes == Serializer.SerializeDescription(w, partner)
    }

    method Arrive(a: Arrival)
      modifies this`recvBuffer, this`received, this`left
      ensures received == (old(received) || a.DescriptionArrived?) && left == (old(left) || a.OfferLeft?)
      ensures recvBuffer == if a.DescriptionArrived? then a.bytes else old(recvBuffer)
    {
      match a {
        case DescriptionArrived(bytes) => recvBuffer, received := bytes, true;
        case OfferLeft => left := true;
      }
    }

    /** Waits for the partner's description, decodes it and connects the endpoint; then waits until
        the own description has left.  Waiting stops when the arrivals run out. */
    method WaitForCompletion(w: Serializer.Widths, arrivals: seq<Arrival>, ghost partner: BufferDescription)
      returns (finished: bool)
      requires Brings(w, partner, arrivals)
      modifies this`recvBuffer, this`received, this`left, endpoint
      ensures var comes := old(received) || exists a :: a in arrivals && a.DescriptionArrived?;
              && (comes ==> endpoint.isConnected && endpoint.otherBufferDesc == Some(partner))
              && (!comes ==> unchanged(endpoint))
              && (finished <==> comes && (old(left) || OfferLeft in arrivals))
    {
      ghost var bytes := Serializer.SerializeDescription(w, partner);
      Serializer.DescriptionRoundTrip(w, bytes, 0, partner);
      finished := ConnectAndWait(w, arrivals, partner, bytes);
    }

    /** `bytes` stands for `partner`. */
    method ConnectAndWait(w: Serializer.Widths, arrivals: seq<Arrival>, ghost partner: BufferDescription,
                          ghost bytes: seq<byte>)
      returns (finished: bool)
      requires Serializer.DescriptionSize(w) <= |bytes| && Serializer.DescriptionAt(w, bytes, 0) == partner
      requires received ==> recvBuffer == bytes
      requires forall a :: a in arrivals && a.DescriptionArrived? ==> a.bytes == bytes
      modifies this`recvBuffer, this`received, this`left, endpoint
      ensures old(received) || Announced(arrivals) ==> endpoint.isConnected && endpoint.otherBufferDesc == Some(partner)
      ensures !old(received) && !Announced(arrivals) ==> unchanged(endpoint)
      ensures finished <==> (old(received) || Announced(arrivals)) && (old(left) || OfferLeft in arrivals)
    {
      var rest := AwaitDescription(arrivals, bytes);
      if !received { return false; }
      received := false;
      var other, _ := Serializer.DeserializeDescription(w, recvBuffer, 0);
      endpoint.SetRemotePartner(other);
      AwaitLeft(rest);
      finished := left;
      left := false;
    }

    /** Waits until a description is there: every description that arrives is `bytes`. */
    method AwaitDescription(arrivals: seq<Arrival>, ghost bytes: seq<byte>) returns (rest: seq<Arrival>)
      requires received ==> recvBuffer == bytes
      requires forall a :: a in arrivals && a.DescriptionArrived? ==> a.bytes == bytes
      modifies this`recvBuffer, this`received, this`left
      ensures received <==> old(received) || Announced(arrivals)
      ensures received ==> recvBuffer == bytes
      ensures left || OfferLeft in rest <==> old(left) || OfferLeft in arrivals
    {
      rest := arrivals;
      while !received && rest != []
        invariant received ==> recvBuffer == bytes
        invariant forall a :: a in rest && a.DescriptionArrived? ==> a.bytes == bytes
        invariant received || Announced(rest) <==> old(received) || Announced(arrivals)
        invariant left || OfferLeft in rest <==> old(left) || OfferLeft in arrivals
        decreases |rest|
      {
        assert rest == [rest[0]] + rest[1..];
        Arrive(rest[0]);
        rest := rest[1..];
      }
    }

    /** Waits until the own description has left. */
    method AwaitLeft(arrivals: seq<Arrival>)
      modifies this`recvBuffer, this`received, this`left
      ensures left <==> old(left) || OfferLeft in arrivals
    {
      var rest := arrivals;
      while !left && rest != []
        invariant left || OfferLeft in rest <==> old(left) || OfferLeft in arrivals
        decreases |rest|
      {
        assert rest == [rest[0]] + rest[1..];
        Arrive(rest[0]);
        rest := rest[1..];
      }
    }
  }

  /** A copy of an endpoint takes the memory of the original and a notification of its own; it is
      not connected. */
  method Copy<T>(original: Endpoint<T>, ids: Notifications.NotificationManager) returns (r: Result<Endpoint<T>>)
    requires ids.Invariant() && Extent(original.notification, 1) in Live(ids.blocks)
    modifies ids
    ensures ids.Invariant() && Extent(original.notification, 1) in Live(ids.blocks)
    ensures r.Ok? ==>
              && fresh(r.value) && r.value.memory == original.memory && r.value.role == original.role
              && r.value.notification != original.notification
              && Live(ids.blocks) == old(Live(ids.blocks)) + {Extent(r.value.notification, 1)}
              && r.value.localBufferDesc == original.localBufferDesc.(notificationId := r.value.notification)
              && !r.value.isConnected && r.value.otherBufferDesc == None
    ensures r.Err? ==> Live(ids.blocks) == old(Live(ids.blocks))
  {
    var id := ids.Allocate(1);
    match id {
      case Err(error) => r := Err(error);
      case Ok(notification) =>
        assert FreeRun(0, ids.end, old(Live(ids.blocks)), notification, 1);
        assert Apart(Extent(original.notification, 1), notification, 1);
        var copy := new Endpoint<T>(original.memory, notification, original.role,
                                    original.localBufferDesc.(notificationId := notification));
        r := Ok(copy);
    }
  }
}
