/** The rendezvous over any number of connects: nobody is given a description that is not its
    partner's, offers and requests are conserved, and no key is ever used twice. */
module RendezvousTheorems {
  import opened Rendezvous

  function B(b: bool): nat {
    if b then 1 else 0
  }

  // ----- the queues -----

  predicate PendingSrc(queues: seq<Queues<Id>>, e: Id) {
    e.owner < |queues| && OfferKey(e) in queues[e.owner].srcs
  }

  predicate PendingRcv(queues: seq<Queues<Id>>, e: Id) {
    e.peer < |queues| && RequestKey(e) in queues[e.peer].rcvs
  }

  /** Every entry sits under the key of its endpoint, and no key is in both maps of a process. */
  ghost predicate QueueOk(ids: set<Id>, x: nat, q: Queues<Id>) {
    && (forall k :: k in q.srcs ==> q.srcs[k] in ids && q.srcs[k].owner == x && OfferKey(q.srcs[k]) == k)
    && (forall k :: k in q.rcvs ==> q.rcvs[k] in ids && q.rcvs[k].peer == x && RequestKey(q.rcvs[k]) == k)
    && q.srcs.Keys !! q.rcvs.Keys
  }

  ghost predicate QueuesOk(ids: set<Id>, queues: seq<Queues<Id>>) {
    forall x {:trigger QueueOk(ids, x, queues[x])} :: 0 <= x < |queues| ==> QueueOk(ids, x, queues[x])
  }

  /** Offering `e`: it meets its partner's request if that is pending, and waits otherwise. */
  lemma SrcEffect(ids: set<Id>, queues: seq<Queues<Id>>, e: Id, f: Id)
    requires QueuesOk(ids, queues) && e in ids && e.owner < |queues| && e.peer < |queues| && !PendingSrc(queues, e)
    ensures var (q, reply) := HandleSrc(queues[e.owner], OfferKey(e), e);
            var queues' := queues[e.owner := q];
            && QueuesOk(ids, queues')
            && reply == (if PendingRcv(queues, Partner(e)) then Match(e, Partner(e)) else Queued)
            && PendingSrc(queues', f) == (PendingSrc(queues, f) || (f == e && reply.Queued?))
            && PendingRcv(queues', f) == (PendingRcv(queues, f) && f != Partner(e))
  {
    KeysMeet(e, f);
    assert QueueOk(ids, e.owner, queues[e.owner]);
    if OfferKey(e) in queues[e.owner].rcvs {
      KeysMeet(e, queues[e.owner].rcvs[OfferKey(e)]);
    }
    KeysMeet(e, Partner(e));
  }

  lemma RcvEffect(ids: set<Id>, queues: seq<Queues<Id>>, e: Id, f: Id)
    requires QueuesOk(ids, queues) && e in ids && e.owner < |queues| && e.peer < |queues| && !PendingRcv(queues, e)
    ensures var (q, reply) := HandleRcv(queues[e.peer], RequestKey(e), e);
            var queues' := queues[e.peer := q];
            && QueuesOk(ids, queues')
            && reply == (if PendingSrc(queues, Partner(e)) then Match(Partner(e), e) else Queued)
            && PendingRcv(queues', f) == (PendingRcv(queues, f) || (f == e && reply.Queued?))
            && PendingSrc(queues', f) == (PendingSrc(queues, f) && f != Partner(e))
  {
    KeysMeet(f, e);
    KeysMeet(e, f);
    assert QueueOk(ids, e.peer, queues[e.peer]);
    if RequestKey(e) in queues[e.peer].srcs {
      KeysMeet(queues[e.peer].srcs[RequestKey(e)], e);
    }
    KeysMeet(Partner(e), e);
  }

  // ----- the counts -----

  /** How often an endpoint has offered, asked, and learned its partner's description. */
  ghost function OfferedCount<D>(s: State<D>, e: Id): nat {
    if e in s.ctl then s.ctl[e].done + B(!s.ctl[e].stage.Idle?) else 0
  }

  ghost function AskedCount<D>(s: State<D>, e: Id): nat {
    if e in s.ctl then s.ctl[e].done + B(s.ctl[e].stage.Asked? || s.ctl[e].stage.Learned?) else 0
  }

  ghost function LearnedCount<D>(s: State<D>, e: Id): nat {
    if e in s.ctl then s.ctl[e].done + B(s.ctl[e].stage.Learned?) else 0
  }

  /** Offers that have been matched, and requests that have been. */
  ghost function OffersMatched<D>(s: State<D>, e: Id): int {
    OfferedCount(s, e) - B(PendingSrc(s.queues, e))
  }

  ghost function RequestsMatched<D>(s: State<D>, e: Id): int {
    AskedCount(s, e) - s.requests[e] - B(PendingRcv(s.queues, e))
  }

  /** The description that endpoint `e` has to learn next. */
  ghost function Expected<D>(cfg: Config<D>, s: State<D>, e: Id): D {
    cfg.local(Partner(e), LearnedCount(s, e))
  }

  ghost predicate Conserved<D>(s: State<D>, e: Id) {
    RequestsMatched(s, e) == OffersMatched(s, Partner(e))
  }

  /** What has been matched for endpoint `e` and not yet learned is on its way or has arrived. */
  ghost predicate ComingOk<D>(cfg: Config<D>, s: State<D>, e: Id) {
    s.descriptions[(e, Expected(cfg, s, e))] + B(e in s.got) == RequestsMatched(s, e) - LearnedCount(s, e)
  }

  ghost predicate SentOk<D>(s: State<D>, e: Id)
    requires e in s.ctl
  {
    s.sentNotes[e] + B(e in s.sent) == OffersMatched(s, e) - s.ctl[e].done
  }

  ghost predicate BuffersOk<D>(cfg: Config<D>, s: State<D>, e: Id)
    requires e in s.ctl
  {
    && (e in s.got ==> e in s.recvBuf && s.recvBuf[e] == Expected(cfg, s, e))
    && (!s.ctl[e].stage.Idle? ==> e in s.sendBuf && s.sendBuf[e] == cfg.local(e, s.ctl[e].done))
  }

  ghost predicate OthersOk<D>(cfg: Config<D>, s: State<D>, e: Id)
    requires e in s.ctl
  {
    && |s.ctl[e].others| == LearnedCount(s, e)
    && forall k :: 0 <= k < |s.ctl[e].others| ==> s.ctl[e].others[k] == cfg.local(Partner(e), k)
  }

  ghost predicate EndpointOk<D>(cfg: Config<D>, s: State<D>, e: Id)
    requires e in s.ctl
  {
    ComingOk(cfg, s, e) && SentOk(s, e) && BuffersOk(cfg, s, e) && OthersOk(cfg, s, e)
  }

  /** What is on its way belongs to the group, and a description is the one its receiver needs next. */
  ghost predicate MessagesOk<D>(cfg: Config<D>, s: State<D>) {
    && (forall e :: e in s.requests || e in s.sentNotes ==> e in cfg.ids)
    && (forall m :: m in s.descriptions ==> m.0 in cfg.ids && m.1 == Expected(cfg, s, m.0))
  }

  ghost predicate Inv<D>(cfg: Config<D>, s: State<D>) {
    && Shape(cfg, s) && QueuesOk(cfg.ids, s.queues) && !s.failed
    && MessagesOk(cfg, s)
    && (forall e {:trigger Conserved(s, e)} :: Conserved(s, e))
    && forall e {:trigger EndpointOk(cfg, s, e)} :: e in cfg.ids ==> EndpointOk(cfg, s, e)
  }

  lemma InitInv<D>(cfg: Config<D>, s: State<D>)
    requires Init(cfg, s)
    ensures Inv(cfg, s)
  {
    forall e ensures Conserved(s, e) {}
    forall e | e in cfg.ids ensures EndpointOk(cfg, s, e) {}
  }

  /** Everything the counts of an endpoint depend on is the same. */
  ghost predicate SameNumbers<D>(s: State<D>, s': State<D>, f: Id) {
    && OfferedCount(s', f) == OfferedCount(s, f) && AskedCount(s', f) == AskedCount(s, f)
    && LearnedCount(s', f) == LearnedCount(s, f) && s'.requests[f] == s.requests[f]
    && PendingSrc(s'.queues, f) == PendingSrc(s.queues, f) && PendingRcv(s'.queues, f) == PendingRcv(s.queues, f)
  }

  /** And everything else about it. */
  ghost predicate SameRest<D>(cfg: Config<D>, s: State<D>, s': State<D>, f: Id)
    requires f in s.ctl && f in s'.ctl
  {
    && s'.ctl[f] == s.ctl[f]
    && s'.descriptions[(f, Expected(cfg, s, f))] == s.descriptions[(f, Expected(cfg, s, f))]
    && s'.sentNotes[f] == s.sentNotes[f] && (f in s'.got <==> f in s.got) && (f in s'.sent <==> f in s.sent)
    && (f in s.got ==> f in s.recvBuf ==> f in s'.recvBuf && s'.recvBuf[f] == s.recvBuf[f])
    && (f in s.sendBuf ==> f in s'.sendBuf && s'.sendBuf[f] == s.sendBuf[f])
  }

  ghost predicate SameAt<D>(cfg: Config<D>, s: State<D>, s': State<D>, f: Id) {
    SameNumbers(s, s', f) && (f in s.ctl ==> f in s'.ctl && SameRest(cfg, s, s', f))
  }

  lemma EndpointKept<D>(cfg: Config<D>, s: State<D>, s': State<D>, f: Id)
    requires f in s.ctl && f in s'.ctl && EndpointOk(cfg, s, f)
    requires SameNumbers(s, s', f) && SameRest(cfg, s, s', f)
    ensures EndpointOk(cfg, s', f)
  {}

  /** The counts of one endpoint are in order: so each stage happens at most once ahead of the next. */
  lemma Ordered<D>(cfg: Config<D>, s: State<D>, e: Id)
    requires Inv(cfg, s) && e in cfg.ids
    ensures s.ctl[e].done <= OffersMatched(s, e) <= OfferedCount(s, e) <= s.ctl[e].done + 1
    ensures s.ctl[e].done <= LearnedCount(s, e) <= RequestsMatched(s, e) <= AskedCount(s, e) <= s.ctl[e].done + 1
    ensures RequestsMatched(s, e) == OffersMatched(s, Partner(e))
    ensures OffersMatched(s, e) == RequestsMatched(s, Partner(e))
  {
    assert EndpointOk(cfg, s, e) && Conserved(s, e) && Conserved(s, Partner(e));
  }

  // ----- preservation: offers and requests -----

  lemma PendingInGroup<D>(cfg: Config<D>, s: State<D>, e: Id)
    requires Inv(cfg, s)
    ensures PendingSrc(s.queues, e) || PendingRcv(s.queues, e) ==> e in cfg.ids
  {
    if PendingSrc(s.queues, e) {
      assert QueueOk(cfg.ids, e.owner, s.queues[e.owner]);
      KeysMeet(e, s.queues[e.owner].srcs[OfferKey(e)]);
    }
    if PendingRcv(s.queues, e) {
      assert QueueOk(cfg.ids, e.peer, s.queues[e.peer]);
      KeysMeet(e, s.queues[e.peer].rcvs[RequestKey(e)]);
    }
  }

  /** How a step changes the numbers of `f` if it matches `src` with its partner, or nothing at all. */
  ghost predicate NumbersAt<D>(s: State<D>, s': State<D>, src: Id, met: bool, f: Id) {
    && OffersMatched(s', f) == OffersMatched(s, f) + B(met && f == src)
    && RequestsMatched(s', f) == RequestsMatched(s, f) + B(met && f == Partner(src))
    && LearnedCount(s', f) == LearnedCount(s, f)
  }

  /** What the same step does to the messages and buffers; a match takes `d` from src's buffer. */
  ghost predicate MatchEffect<D>(cfg: Config<D>, s: State<D>, s': State<D>, src: Id, met: bool, d: D) {
    && (forall f {:trigger NumbersAt(s, s', src, met, f)} :: NumbersAt(s, s', src, met, f))
    && (forall f :: f in s.ctl ==>
                      f in s'.ctl && s'.ctl[f].done == s.ctl[f].done && s'.ctl[f].others == s.ctl[f].others)
    && s'.recvBuf == s.recvBuf && s'.got == s.got && s'.sent == s.sent && s'.failed == s.failed
    && s'.requests <= s.requests
    && (met ==> src in cfg.ids && Partner(src) in cfg.ids && d == Expected(cfg, s, Partner(src)))
    && s'.descriptions == (if met then s.descriptions + multiset{(Partner(src), d)} else s.descriptions)
    && s'.sentNotes == (if met then s.sentNotes + multiset{src} else s.sentNotes)
  }

  lemma MatchComing<D>(cfg: Config<D>, s: State<D>, s': State<D>, src: Id, met: bool, d: D, f: Id)
    requires MatchEffect(cfg, s, s', src, met, d) && ComingOk(cfg, s, f)
    ensures ComingOk(cfg, s', f)
  {
    assert NumbersAt(s, s', src, met, f);
  }

  lemma MatchSent<D>(cfg: Config<D>, s: State<D>, s': State<D>, src: Id, met: bool, d: D, f: Id)
    requires f in s.ctl && MatchEffect(cfg, s, s', src, met, d) && SentOk(s, f)
    ensures f in s'.ctl && SentOk(s', f)
  {
    assert NumbersAt(s, s', src, met, f);
  }

  lemma MatchBuffers<D>(cfg: Config<D>, s: State<D>, s': State<D>, src: Id, met: bool, d: D, f: Id)
    requires f in s.ctl && MatchEffect(cfg, s, s', src, met, d) && BuffersOk(cfg, s, f) && OthersOk(cfg, s, f)
    requires s'.ctl[f].stage == s.ctl[f].stage && (f in s.sendBuf ==> f in s'.sendBuf && s'.sendBuf[f] == s.sendBuf[f])
    ensures BuffersOk(cfg, s', f)
  {
    assert NumbersAt(s, s', src, met, f);
  }

  lemma MatchOthers<D>(cfg: Config<D>, s: State<D>, s': State<D>, src: Id, met: bool, d: D, f: Id)
    requires f in s.ctl && MatchEffect(cfg, s, s', src, met, d) && OthersOk(cfg, s, f)
    ensures f in s'.ctl && OthersOk(cfg, s', f)
  {
    assert NumbersAt(s, s', src, met, f);
  }

  lemma MatchMessages<D>(cfg: Config<D>, s: State<D>, s': State<D>, src: Id, met: bool, d: D)
    requires Inv(cfg, s) && MatchEffect(cfg, s, s', src, met, d)
    ensures MessagesOk(cfg, s')
  {
    forall m | m in s'.descriptions ensures m.0 in cfg.ids && m.1 == Expected(cfg, s', m.0) {
      assert m in s.descriptions || (met && m == (Partner(src), d));
      assert NumbersAt(s, s', src, met, m.0);
    }
    forall e | e in s'.requests || e in s'.sentNotes ensures e in cfg.ids {
      assert e in s.requests || e in s.sentNotes || (met && e == src);
    }
  }

  lemma MatchConserved<D>(cfg: Config<D>, s: State<D>, s': State<D>, src: Id, met: bool, d: D, f: Id)
    requires MatchEffect(cfg, s, s', src, met, d) && Conserved(s, f)
    ensures Conserved(s', f)
  {
    assert NumbersAt(s, s', src, met, f) && NumbersAt(s, s', src, met, Partner(f));
  }

  lemma MatchKeeps<D>(cfg: Config<D>, s: State<D>, s': State<D>, src: Id, met: bool, d: D)
    requires Inv(cfg, s) && MatchEffect(cfg, s, s', src, met, d) && Shape(cfg, s') && QueuesOk(cfg.ids, s'.queues)
    requires forall f :: f in cfg.ids ==> BuffersOk(cfg, s', f)
    ensures Inv(cfg, s')
  {
    MatchMessages(cfg, s, s', src, met, d);
    forall f ensures Conserved(s', f) {
      assert Conserved(s, f);
      MatchConserved(cfg, s, s', src, met, d, f);
    }
    forall f | f in cfg.ids ensures EndpointOk(cfg, s', f) {
      assert EndpointOk(cfg, s, f);
      MatchComing(cfg, s, s', src, met, d, f);
      MatchSent(cfg, s, s', src, met, d, f);
      MatchOthers(cfg, s, s', src, met, d, f);
    }
  }

  /** The fields after an offer. */
  lemma OfferStep<D>(cfg: Config<D>, s: State<D>, e: Id)
    requires Inv(cfg, s) && Enabled(cfg, s, Offer(e))
    ensures var s', met, d := Step(cfg, s, Offer(e)), PendingRcv(s.queues, Partner(e)), cfg.local(e, s.ctl[e].done);
            && !PendingSrc(s.queues, e)
            && s'.queues == s.queues[e.owner := HandleSrc(s.queues[e.owner], OfferKey(e), e).0]
            && s'.ctl == s.ctl[e := s.ctl[e].(stage := Offered)] && s'.sendBuf == s.sendBuf[e := d]
            && s'.requests == s.requests && s'.recvBuf == s.recvBuf && s'.got == s.got && s'.sent == s.sent
            && !s'.failed
            && s'.descriptions == (if met then s.descriptions + multiset{(Partner(e), d)} else s.descriptions)
            && s'.sentNotes == (if met then s.sentNotes + multiset{e} else s.sentNotes)
  {
    Ordered(cfg, s, e);
    SrcEffect(cfg.ids, s.queues, e, e);
  }

  lemma OfferNumbers<D>(s: State<D>, s': State<D>, e: Id, met: bool, f: Id)
    requires e in s.ctl && s.ctl[e].stage.Idle? && s'.ctl == s.ctl[e := s.ctl[e].(stage := Offered)]
    requires s'.requests == s.requests
    requires !PendingSrc(s.queues, e) && met == PendingRcv(s.queues, Partner(e))
    requires PendingSrc(s'.queues, f) == (PendingSrc(s.queues, f) || (f == e && !met))
    requires PendingRcv(s'.queues, f) == (PendingRcv(s.queues, f) && f != Partner(e))
    ensures NumbersAt(s, s', e, met, f)
  {}

  lemma OfferNumbersAt<D>(cfg: Config<D>, s: State<D>, e: Id, f: Id)
    requires Inv(cfg, s) && Enabled(cfg, s, Offer(e))
    ensures NumbersAt(s, Step(cfg, s, Offer(e)), e, PendingRcv(s.queues, Partner(e)), f)
  {
    OfferStep(cfg, s, e);
    SrcEffect(cfg.ids, s.queues, e, f);
    OfferNumbers(s, Step(cfg, s, Offer(e)), e, PendingRcv(s.queues, Partner(e)), f);
  }

  /** The description that an offer hands to a waiting request is the one expected there. */
  lemma OfferExpected<D>(cfg: Config<D>, s: State<D>, e: Id)
    requires Inv(cfg, s) && Enabled(cfg, s, Offer(e)) && PendingRcv(s.queues, Partner(e))
    ensures Partner(e) in cfg.ids && cfg.local(e, s.ctl[e].done) == Expected(cfg, s, Partner(e))
  {
    PendingInGroup(cfg, s, Partner(e));
    Ordered(cfg, s, e);
    Ordered(cfg, s, Partner(e));
  }

  lemma OfferMatches<D>(cfg: Config<D>, s: State<D>, e: Id)
    requires Inv(cfg, s) && Enabled(cfg, s, Offer(e))
    ensures MatchEffect(cfg, s, Step(cfg, s, Offer(e)), e, PendingRcv(s.queues, Partner(e)),
                        cfg.local(e, s.ctl[e].done))
  {
    var s', met := Step(cfg, s, Offer(e)), PendingRcv(s.queues, Partner(e));
    OfferStep(cfg, s, e);
    if met { OfferExpected(cfg, s, e); }
    forall f ensures NumbersAt(s, s', e, met, f) {
      OfferNumbersAt(cfg, s, e, f);
    }
  }

  lemma OfferBuffers<D>(cfg: Config<D>, s: State<D>, s': State<D>, e: Id, met: bool, d: D, f: Id)
    requires f in s.ctl && e in s.ctl && MatchEffect(cfg, s, s', e, met, d) && BuffersOk(cfg, s, f)
    requires OthersOk(cfg, s, f)
    requires s'.ctl == s.ctl[e := s.ctl[e].(stage := Offered)] && d == cfg.local(e, s.ctl[e].done)
    requires s'.sendBuf == s.sendBuf[e := d]
    ensures BuffersOk(cfg, s', f)
  {
    if f != e {
      MatchBuffers(cfg, s, s', e, met, d, f);
    } else {
      assert NumbersAt(s, s', e, met, e);
    }
  }

  lemma OfferInv<D>(cfg: Config<D>, s: State<D>, e: Id)
    requires Inv(cfg, s) && Enabled(cfg, s, Offer(e))
    ensures Inv(cfg, Step(cfg, s, Offer(e)))
  {
    var s', met, d := Step(cfg, s, Offer(e)), PendingRcv(s.queues, Partner(e)), cfg.local(e, s.ctl[e].done);
    OfferStep(cfg, s, e);
    OfferMatches(cfg, s, e);
    SrcEffect(cfg.ids, s.queues, e, e);
    forall f | f in cfg.ids ensures BuffersOk(cfg, s', f) {
      assert EndpointOk(cfg, s, f);
      OfferBuffers(cfg, s, s', e, met, d, f);
    }
    MatchKeeps(cfg, s, s', e, met, d);
  }

  /** The state in which a request has reached its peer. */
  ghost function Arrival<D>(s: State<D>, e: Id): State<D>
    requires e.peer < |s.queues|
  {
    Request(s.(requests := s.requests - multiset{e}), e)
  }

  /** The fields after that. */
  ghost predicate RequestStepped<D>(cfg: Config<D>, s: State<D>, s': State<D>, e: Id)
    requires e.peer < |s.queues|
  {
    var met := PendingSrc(s.queues, Partner(e));
    && !PendingRcv(s.queues, e)
    && s'.queues == s.queues[e.peer := HandleRcv(s.queues[e.peer], RequestKey(e), e).0]
    && s'.ctl == s.ctl && s'.sendBuf == s.sendBuf && s'.requests == s.requests - multiset{e}
    && s'.recvBuf == s.recvBuf && s'.got == s.got && s'.sent == s.sent && !s'.failed
    && (met ==> Partner(e) in cfg.ids)
    && s'.descriptions == (if met then s.descriptions + multiset{(e, Expected(cfg, s, e))} else s.descriptions)
    && s'.sentNotes == (if met then s.sentNotes + multiset{Partner(e)} else s.sentNotes)
  }

  lemma RequestStep<D>(cfg: Config<D>, s: State<D>, e: Id)
    requires Inv(cfg, s) && e in cfg.ids && e in s.requests
    ensures RequestStepped(cfg, s, Arrival(s, e), e)
  {
    Ordered(cfg, s, e);
    RcvEffect(cfg.ids, s.queues, e, e);
    if PendingSrc(s.queues, Partner(e)) {
      PendingInGroup(cfg, s, Partner(e));
      OfferedDescription(cfg, s, e);
    }
  }

  /** The offer that a request meets carries what the requester has to learn. */
  lemma OfferedDescription<D>(cfg: Config<D>, s: State<D>, e: Id)
    requires Inv(cfg, s) && e in cfg.ids && e in s.requests && Partner(e) in cfg.ids && PendingSrc(s.queues, Partner(e))
    ensures Partner(e) in s.sendBuf && s.sendBuf[Partner(e)] == Expected(cfg, s, e)
  {
    Ordered(cfg, s, e);
    Ordered(cfg, s, Partner(e));
    assert EndpointOk(cfg, s, Partner(e));
  }

  lemma RequestNumbers<D>(s: State<D>, s': State<D>, e: Id, met: bool, f: Id)
    requires e in s.requests && s'.ctl == s.ctl && s'.requests == s.requests - multiset{e}
    requires !PendingRcv(s.queues, e) && met == PendingSrc(s.queues, Partner(e))
    requires PendingRcv(s'.queues, f) == (PendingRcv(s.queues, f) || (f == e && !met))
    requires PendingSrc(s'.queues, f) == (PendingSrc(s.queues, f) && f != Partner(e))
    ensures NumbersAt(s, s', Partner(e), met, f)
  {
    assert Partner(Partner(e)) == e;
    assert s'.requests[f] == s.requests[f] - B(f == e);
    assert OfferedCount(s', f) == OfferedCount(s, f) && AskedCount(s', f) == AskedCount(s, f);
  }

  lemma RequestNumbersAt<D>(cfg: Config<D>, s: State<D>, s': State<D>, e: Id, f: Id)
    requires Inv(cfg, s) && e in cfg.ids && e in s.requests && RequestStepped(cfg, s, s', e)
    ensures NumbersAt(s, s', Partner(e), PendingSrc(s.queues, Partner(e)), f)
  {
    RcvEffect(cfg.ids, s.queues, e, f);
    RequestNumbers(s, s', e, PendingSrc(s.queues, Partner(e)), f);
  }

  lemma RequestMatches<D>(cfg: Config<D>, s: State<D>, s': State<D>, e: Id)
    requires Inv(cfg, s) && e in cfg.ids && e in s.requests && RequestStepped(cfg, s, s', e)
    ensures MatchEffect(cfg, s, s', Partner(e), PendingSrc(s.queues, Partner(e)), Expected(cfg, s, e))
  {
    forall f ensures NumbersAt(s, s', Partner(e), PendingSrc(s.queues, Partner(e)), f) {
      RequestNumbersAt(cfg, s, s', e, f);
    }
    assert Partner(Partner(e)) == e;
    assert s'.requests <= s.requests;
  }

  lemma RequestInv<D>(cfg: Config<D>, s: State<D>, s': State<D>, e: Id)
    requires Inv(cfg, s) && e in cfg.ids && e in s.requests && RequestStepped(cfg, s, s', e)
    ensures Inv(cfg, s')
  {
    var met, d := PendingSrc(s.queues, Partner(e)), Expected(cfg, s, e);
    RequestMatches(cfg, s, s', e);
    RcvEffect(cfg.ids, s.queues, e, e);
    forall f | f in cfg.ids ensures BuffersOk(cfg, s', f) {
      assert EndpointOk(cfg, s, f);
      MatchBuffers(cfg, s, s', Partner(e), met, d, f);
    }
    MatchKeeps(cfg, s, s', Partner(e), met, d);
  }

  // ----- preservation: the other actions -----

  /** An action that touches the numbers of `e` alone, without changing the balance of its offers
      and requests, keeps the invariant if it keeps that of `e`. */
  lemma Others<D>(cfg: Config<D>, s: State<D>, s': State<D>, e: Id)
    requires Inv(cfg, s) && e in cfg.ids && Shape(cfg, s') && s'.queues == s.queues && !s'.failed
    requires OffersMatched(s', e) == OffersMatched(s, e) && RequestsMatched(s', e) == RequestsMatched(s, e)
    requires forall f :: f != e ==> SameAt(cfg, s, s', f)
    requires EndpointOk(cfg, s', e) && MessagesOk(cfg, s')
    ensures Inv(cfg, s')
  {
    forall f ensures Conserved(s', f) {
      assert Conserved(s, f);
      assert f != e ==> SameAt(cfg, s, s', f);
      assert Partner(f) != e ==> SameAt(cfg, s, s', Partner(f));
    }
    forall f | f in cfg.ids ensures EndpointOk(cfg, s', f) {
      assert EndpointOk(cfg, s, f);
      if f != e {
        assert SameAt(cfg, s, s', f);
        EndpointKept(cfg, s, s', f);
      }
    }
  }

  /** Nothing comes on its way, and what still is goes to endpoints that have learned nothing. */
  lemma MessagesKept<D>(cfg: Config<D>, s: State<D>, s': State<D>, e: Id)
    requires MessagesOk(cfg, s) && e in cfg.ids
    requires forall f :: f != e ==> SameAt(cfg, s, s', f)
    requires forall f :: f in s'.requests || f in s'.sentNotes ==> f == e || f in s.requests || f in s.sentNotes
    requires forall m :: m in s'.descriptions ==>
                           m in s.descriptions && (m.0 == e ==> LearnedCount(s', e) == LearnedCount(s, e))
    ensures MessagesOk(cfg, s')
  {
    forall m | m in s'.descriptions ensures m.0 in cfg.ids && m.1 == Expected(cfg, s', m.0) {
      assert m.0 != e ==> SameAt(cfg, s, s', m.0);
    }
  }

  /** The state with endpoint `e` in a new control state. */
  lemma ControlOthers<D>(cfg: Config<D>, s: State<D>, s': State<D>, e: Id, f: Id)
    requires e in s.ctl && f != e && e in s'.ctl && s'.queues == s.queues
    requires s'.ctl == s.ctl || s'.ctl == s.ctl[e := s'.ctl[e]]
    requires s'.requests[f] == s.requests[f] && s'.sentNotes[f] == s.sentNotes[f]
    requires f in s.ctl ==> s'.descriptions[(f, Expected(cfg, s, f))] == s.descriptions[(f, Expected(cfg, s, f))]
    requires (f in s'.got <==> f in s.got) && (f in s'.sent <==> f in s.sent) && s'.sendBuf == s.sendBuf
    requires f in s.recvBuf ==> f in s'.recvBuf && s'.recvBuf[f] == s.recvBuf[f]
    ensures SameAt(cfg, s, s', f)
  {}

  lemma AskInv<D>(cfg: Config<D>, s: State<D>, e: Id)
    requires Inv(cfg, s) && Enabled(cfg, s, Ask(e))
    ensures Inv(cfg, Step(cfg, s, Ask(e)))
  {
    // on its way first; a request to the own process arrives at once
    var s' := s.(ctl := s.ctl[e := s.ctl[e].(stage := Asked)], requests := s.requests + multiset{e});
    AskedInv(cfg, s, s', e);
    if e.peer == e.owner {
      RequestStep(cfg, s', e);
      RequestInv(cfg, s', Arrival(s', e), e);
      assert s'.requests - multiset{e} == s.requests;
      assert s'.(requests := s.requests) == s.(ctl := s'.ctl);
    }
  }

  lemma AskedSelf<D>(cfg: Config<D>, s: State<D>, s': State<D>, e: Id)
    requires Shape(cfg, s) && Enabled(cfg, s, Ask(e)) && EndpointOk(cfg, s, e)
    requires s' == s.(ctl := s.ctl[e := s.ctl[e].(stage := Asked)], requests := s.requests + multiset{e})
    ensures EndpointOk(cfg, s', e)
    ensures OffersMatched(s', e) == OffersMatched(s, e) && RequestsMatched(s', e) == RequestsMatched(s, e)
    ensures LearnedCount(s', e) == LearnedCount(s, e)
  {}

  lemma AskedInv<D>(cfg: Config<D>, s: State<D>, s': State<D>, e: Id)
    requires Inv(cfg, s) && Enabled(cfg, s, Ask(e))
    requires s' == s.(ctl := s.ctl[e := s.ctl[e].(stage := Asked)], requests := s.requests + multiset{e})
    ensures Inv(cfg, s')
  {
    assert EndpointOk(cfg, s, e);
    AskedSelf(cfg, s, s', e);
    forall f | f != e ensures SameAt(cfg, s, s', f) {
      ControlOthers(cfg, s, s', e, f);
    }
    MessagesKept(cfg, s, s', e);
    Others(cfg, s, s', e);
  }

  lemma LearnSelf<D>(cfg: Config<D>, s: State<D>, s': State<D>, e: Id)
    requires Shape(cfg, s) && Enabled(cfg, s, Learn(e)) && EndpointOk(cfg, s, e)
    requires s' == s.(ctl := s.ctl[e := s.ctl[e].(stage := Learned, others := s.ctl[e].others + [s.recvBuf[e]])],
                      got := s.got - {e})
    requires RequestsMatched(s, e) <= LearnedCount(s, e) + 1
    requires forall m :: m in s.descriptions ==> m.1 == Expected(cfg, s, m.0)
    ensures EndpointOk(cfg, s', e) && forall m :: m in s'.descriptions ==> m.0 != e
    ensures OffersMatched(s', e) == OffersMatched(s, e) && RequestsMatched(s', e) == RequestsMatched(s, e)
  {
    assert s.descriptions[(e, Expected(cfg, s, e))] == 0;
    assert forall m :: m in s.descriptions && m.0 == e ==> m == (e, Expected(cfg, s, e));
    assert s'.descriptions[(e, Expected(cfg, s', e))] == 0;
  }

  lemma LearnInv<D>(cfg: Config<D>, s: State<D>, s': State<D>, e: Id)
    requires Inv(cfg, s) && Enabled(cfg, s, Learn(e))
    requires s' == s.(ctl := s.ctl[e := s.ctl[e].(stage := Learned, others := s.ctl[e].others + [s.recvBuf[e]])],
                      got := s.got - {e})
    ensures Inv(cfg, s')
  {
    Ordered(cfg, s, e);
    assert EndpointOk(cfg, s, e);
    LearnSelf(cfg, s, s', e);
    forall f | f != e ensures SameAt(cfg, s, s', f) {
      ControlOthers(cfg, s, s', e, f);
    }
    MessagesKept(cfg, s, s', e);
    Others(cfg, s, s', e);
  }

  lemma FinishSelf<D>(cfg: Config<D>, s: State<D>, s': State<D>, e: Id)
    requires Shape(cfg, s) && Enabled(cfg, s, Finish(e)) && EndpointOk(cfg, s, e)
    requires s' == s.(ctl := s.ctl[e := s.ctl[e].(stage := Idle, done := s.ctl[e].done + 1)], sent := s.sent - {e})
    ensures EndpointOk(cfg, s', e)
    ensures OffersMatched(s', e) == OffersMatched(s, e) && RequestsMatched(s', e) == RequestsMatched(s, e)
    ensures LearnedCount(s', e) == LearnedCount(s, e)
  {}

  lemma FinishInv<D>(cfg: Config<D>, s: State<D>, s': State<D>, e: Id)
    requires Inv(cfg, s) && Enabled(cfg, s, Finish(e))
    requires s' == s.(ctl := s.ctl[e := s.ctl[e].(stage := Idle, done := s.ctl[e].done + 1)], sent := s.sent - {e})
    ensures Inv(cfg, s')
  {
    assert EndpointOk(cfg, s, e);
    FinishSelf(cfg, s, s', e);
    forall f | f != e ensures SameAt(cfg, s, s', f) {
      ControlOthers(cfg, s, s', e, f);
    }
    MessagesKept(cfg, s, s', e);
    Others(cfg, s, s', e);
  }

  lemma DescriptionSelf<D>(cfg: Config<D>, s: State<D>, s': State<D>, e: Id)
    requires Shape(cfg, s) && Enabled(cfg, s, DeliverDescription(e, Expected(cfg, s, e)))
    requires s' == s.(descriptions := s.descriptions - multiset{(e, Expected(cfg, s, e))},
                      recvBuf := s.recvBuf[e := Expected(cfg, s, e)],
                      got := s.got + {e})
    requires EndpointOk(cfg, s, e) && RequestsMatched(s, e) <= LearnedCount(s, e) + 1
    ensures EndpointOk(cfg, s', e)
    ensures OffersMatched(s', e) == OffersMatched(s, e) && RequestsMatched(s', e) == RequestsMatched(s, e)
    ensures LearnedCount(s', e) == LearnedCount(s, e)
  {
    assert Expected(cfg, s', e) == Expected(cfg, s, e);
  }

  lemma DeliverDescriptionInv<D>(cfg: Config<D>, s: State<D>, s': State<D>, e: Id, d: D)
    requires Inv(cfg, s) && e in cfg.ids && d == Expected(cfg, s, e) && (e, d) in s.descriptions
    requires s' == s.(descriptions := s.descriptions - multiset{(e, d)}, recvBuf := s.recvBuf[e := d],
                      got := s.got + {e})
    ensures Inv(cfg, s')
  {
    Ordered(cfg, s, e);
    assert EndpointOk(cfg, s, e);
    DescriptionSelf(cfg, s, s', e);
    forall f | f != e ensures SameAt(cfg, s, s', f) {
      ControlOthers(cfg, s, s', e, f);
    }
    MessagesKept(cfg, s, s', e);
    Others(cfg, s, s', e);
  }

  lemma SentSelf<D>(cfg: Config<D>, s: State<D>, s': State<D>, e: Id)
    requires Shape(cfg, s) && Enabled(cfg, s, DeliverSent(e)) && EndpointOk(cfg, s, e)
    requires s' == s.(sentNotes := s.sentNotes - multiset{e}, sent := s.sent + {e})
    requires OffersMatched(s, e) <= s.ctl[e].done + 1
    ensures EndpointOk(cfg, s', e)
    ensures OffersMatched(s', e) == OffersMatched(s, e) && RequestsMatched(s', e) == RequestsMatched(s, e)
    ensures LearnedCount(s', e) == LearnedCount(s, e)
  {}

  lemma DeliverSentInv<D>(cfg: Config<D>, s: State<D>, s': State<D>, e: Id)
    requires Inv(cfg, s) && Enabled(cfg, s, DeliverSent(e))
    requires s' == s.(sentNotes := s.sentNotes - multiset{e}, sent := s.sent + {e})
    ensures Inv(cfg, s')
  {
    Ordered(cfg, s, e);
    assert EndpointOk(cfg, s, e);
    SentSelf(cfg, s, s', e);
    forall f | f != e ensures SameAt(cfg, s, s', f) {
      ControlOthers(cfg, s, s', e, f);
    }
    MessagesKept(cfg, s, s', e);
    Others(cfg, s, s', e);
  }

  lemma StepInv<D>(cfg: Config<D>, s: State<D>, a: Action<D>)
    requires Inv(cfg, s) && Enabled(cfg, s, a)
    ensures Inv(cfg, Step(cfg, s, a))
  {
    match a {
      case Offer(e) => OfferInv(cfg, s, e);
      case Ask(e) => AskInv(cfg, s, e);
      case Learn(e) => LearnInv(cfg, s, Step(cfg, s, a), e);
      case Finish(e) => FinishInv(cfg, s, Step(cfg, s, a), e);
      case DeliverRequest(e) =>
        RequestStep(cfg, s, e);
        RequestInv(cfg, s, Arrival(s, e), e);
      case DeliverDescription(e, d) => DeliverDescriptionInv(cfg, s, Step(cfg, s, a), e, d);
      case DeliverSent(e) => DeliverSentInv(cfg, s, Step(cfg, s, a), e);
    }
  }

  lemma TransitionInv<D(!new)>(cfg: Config<D>, s: State<D>, s': State<D>)
    requires Inv(cfg, s) && Transition(cfg, s, s')
    ensures Inv(cfg, s')
  {
    var a :| Enabled(cfg, s, a) && s' == Step(cfg, s, a);
    StepInv(cfg, s, a);
  }

  lemma {:induction false} RunInv<D(!new)>(cfg: Config<D>, run: seq<State<D>>, n: nat)
    requires IsRun(cfg, run) && n < |run|
    ensures Inv(cfg, run[n])
  {
    if n == 0 {
      InitInv(cfg, run[0]);
    } else {
      RunInv(cfg, run, n - 1);
      assert Transition(cfg, run[n - 1], run[n - 1 + 1]);
      TransitionInv(cfg, run[n - 1], run[n]);
    }
  }

  lemma ReachableInv<D(!new)>(cfg: Config<D>, s: State<D>)
    requires Reachable(cfg, s)
    ensures Inv(cfg, s)
  {
    var run :| IsRun(cfg, run) && run[|run| - 1] == s;
    RunInv(cfg, run, |run| - 1);
  }

  // ----- the results -----

  /** The k-th connect of an endpoint, once completed, holds the local description that its partner,
      and no other endpoint, sent out in its own k-th connect. */
  lemma HandleHoldsPartner<D(!new)>(cfg: Config<D>, s: State<D>, e: Id, k: nat)
    requires Reachable(cfg, s) && Shape(cfg, s) && e in cfg.ids && k < s.ctl[e].done
    ensures k < |s.ctl[e].others| && s.ctl[e].others[k] == cfg.local(Partner(e), k)
    ensures Partner(e) in cfg.ids && k < OfferedCount(s, Partner(e))
  {
    ReachableInv(cfg, s);
    assert EndpointOk(cfg, s, e) && Conserved(s, e);
  }

  /** On every process no key is both offered and asked for, and no key is ever inserted twice. */
  lemma KeysNeverShared<D(!new)>(cfg: Config<D>, s: State<D>, x: nat)
    requires Reachable(cfg, s) && Shape(cfg, s) && x < cfg.p
    ensures s.queues[x].srcs.Keys !! s.queues[x].rcvs.Keys && !s.failed
  {
    ReachableInv(cfg, s);
    assert QueueOk(cfg.ids, x, s.queues[x]);
  }

  /** Posted = matched + pending on both sides: what an endpoint has offered and is not waiting to
      be matched equals what its partner has asked for and is neither on its way nor waiting. */
  lemma PostedIsMatchedPlusPending<D(!new)>(cfg: Config<D>, s: State<D>, e: Id)
    requires Reachable(cfg, s)
    ensures OfferedCount(s, e) - B(PendingSrc(s.queues, e))
            == AskedCount(s, Partner(e)) - s.requests[Partner(e)] - B(PendingRcv(s.queues, Partner(e)))
  {
    ReachableInv(cfg, s);
    assert Partner(Partner(e)) == e;
    assert Conserved(s, Partner(e));
  }

  /** And what is matched lies between what is done and what is posted, which is at most one more. */
  lemma AtMostOneOutstanding<D(!new)>(cfg: Config<D>, s: State<D>, e: Id)
    requires Reachable(cfg, s) && Shape(cfg, s) && e in cfg.ids
    ensures s.ctl[e].done <= OffersMatched(s, e) <= OfferedCount(s, e) <= s.ctl[e].done + 1
    ensures s.ctl[e].done <= RequestsMatched(s, e) <= AskedCount(s, e) <= s.ctl[e].done + 1
  {
    ReachableInv(cfg, s);
    Ordered(cfg, s, e);
  }

  /** Progress: while an endpoint is connecting and its partner has posted its part of the same
      connect, something other than a new connect can happen. */
  lemma NoDeadlock<D(!new)>(cfg: Config<D>, s: State<D>, e: Id)
    requires Reachable(cfg, s) && Shape(cfg, s) && e in cfg.ids && !s.ctl[e].stage.Idle?
    requires AskedCount(s, Partner(e)) > s.ctl[e].done && OfferedCount(s, Partner(e)) > s.ctl[e].done
    ensures exists a :: Enabled(cfg, s, a) && !a.Offer?
  {
    ReachableInv(cfg, s);
    match s.ctl[e].stage {
      case Offered => assert Enabled(cfg, s, Ask(e));
      case Asked => AskedMoves(cfg, s, e);
      case Learned => LearnedMoves(cfg, s, e);
    }
  }

  lemma AskedMoves<D>(cfg: Config<D>, s: State<D>, e: Id)
    requires Inv(cfg, s) && e in cfg.ids && s.ctl[e].stage.Asked? && OfferedCount(s, Partner(e)) > s.ctl[e].done
    ensures exists a :: Enabled(cfg, s, a) && !a.Offer?
  {
    Ordered(cfg, s, e);
    BothPendingImpossible(cfg, s, e);
    assert EndpointOk(cfg, s, e);
    if s.requests[e] > 0 {
      assert Enabled(cfg, s, DeliverRequest(e));
    } else if e in s.got {
      assert Enabled(cfg, s, Learn(e));
    } else {
      assert Enabled(cfg, s, DeliverDescription(e, Expected(cfg, s, e)));
    }
  }

  lemma LearnedMoves<D>(cfg: Config<D>, s: State<D>, e: Id)
    requires Inv(cfg, s) && e in cfg.ids && s.ctl[e].stage.Learned? && AskedCount(s, Partner(e)) > s.ctl[e].done
    ensures exists a :: Enabled(cfg, s, a) && !a.Offer?
  {
    var q := Partner(e);
    Ordered(cfg, s, e);
    BothPendingImpossible(cfg, s, q);
    assert EndpointOk(cfg, s, e);
    if s.requests[q] > 0 {
      assert Enabled(cfg, s, DeliverRequest(q));
    } else if e in s.sent {
      assert Enabled(cfg, s, Finish(e));
    } else {
      assert Enabled(cfg, s, DeliverSent(e));
    }
  }

  /** A request and the offer it asks for are never both waiting. */
  lemma BothPendingImpossible<D>(cfg: Config<D>, s: State<D>, e: Id)
    requires Inv(cfg, s) && e in cfg.ids
    ensures !(PendingRcv(s.queues, e) && PendingSrc(s.queues, Partner(e)))
  {
    KeysMeet(Partner(e), e);
    assert QueueOk(cfg.ids, e.peer, s.queues[e.peer]);
  }
}
