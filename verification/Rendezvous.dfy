/** The tagged rendezvous that connects endpoints: each process matches the descriptions it offers
    against the requests that reach it, whichever comes first.  The machine lets any endpoints of any
    processes connect any number of times, in any interleaving. */
module Rendezvous {

  // ----- tags -----

  datatype Role = Generic | Source | Target

  function Complement(role: Role): Role {
    match role case Generic => Generic case Source => Target case Target => Source
  }

  function SendTag(role: Role, tag: int): int {
    3 * tag + match role case Generic => 0 case Source => 1 case Target => 2
  }

  function RecvTag(role: Role, tag: int): int {
    3 * tag + match role case Generic => 0 case Source => 2 case Target => 1
  }

  /** One endpoint's offer meets another's request exactly if both have the same tag and
      complementary roles. */
  lemma TagsMeet(role: Role, tag: int, role': Role, tag': int)
    ensures SendTag(role, tag) == RecvTag(role', tag') <==> tag' == tag && role' == Complement(role)
    ensures SendTag(role, tag) == SendTag(role', tag') <==> tag' == tag && role' == role
    ensures RecvTag(role, tag) == RecvTag(role', tag') <==> tag' == tag && role' == role
  {}

  // ----- one process -----

  datatype Key = Key(tag: int, rank: nat)

  /** The offers and the requests that have not been matched yet. */
  datatype Queues<D> = Queues(srcs: map<Key, D>, rcvs: map<Key, D>)

  datatype Reply<D> = Match(src: D, rcv: D) | Queued | Duplicate

  function HandleSrc<D>(q: Queues<D>, key: Key, d: D): (Queues<D>, Reply<D>) {
    if key in q.rcvs then (q.(rcvs := q.rcvs - {key}), Match(d, q.rcvs[key]))
    else if key in q.srcs then (q, Duplicate)
    else (q.(srcs := q.srcs[key := d]), Queued)
  }

  function HandleRcv<D>(q: Queues<D>, key: Key, d: D): (Queues<D>, Reply<D>) {
    if key in q.srcs then (q.(srcs := q.srcs - {key}), Match(q.srcs[key], d))
    else if key in q.rcvs then (q, Duplicate)
    else (q.(rcvs := q.rcvs[key := d]), Queued)
  }

  // ----- all processes -----

  /** An endpoint on process `owner` that connects to process `peer`. */
  datatype Id = Id(owner: nat, peer: nat, role: Role, tag: int)

  /** The endpoint that has to connect back; it is the partner of its partner. */
  function Partner(e: Id): Id {
    Id(e.peer, e.owner, Complement(e.role), e.tag)
  }

  /** Where the offer of an endpoint, and its request, are looked up. */
  function OfferKey(e: Id): Key {
    Key(SendTag(e.role, e.tag), e.peer)
  }

  function RequestKey(e: Id): Key {
    Key(RecvTag(e.role, e.tag), e.owner)
  }

  lemma KeysMeet(e: Id, f: Id)
    ensures e.owner == f.peer && OfferKey(e) == RequestKey(f) <==> f == Partner(e)
    ensures e.owner == f.owner && OfferKey(e) == OfferKey(f) <==> f == e
    ensures e.peer == f.peer && RequestKey(e) == RequestKey(f) <==> f == e
  {
    TagsMeet(e.role, e.tag, f.role, f.tag);
  }

  /** `p` processes, the endpoints `ids`; `local(e, k)` is the local description that endpoint `e`
      sends out when it connects for the k-th time. */
  datatype Config<!D> = Config(p: nat, ids: set<Id>, local: (Id, nat) -> D) {
    ghost predicate Valid() {
      forall e :: e in ids ==> e.owner < p && e.peer < p
    }
  }

  /** `Offered` after iSendTagMessg, `Asked` after iRecvTagMessg, `Learned` once the partner's
      description is set. */
  datatype Stage = Idle | Offered | Asked | Learned

  /** `done` counts the handles of this endpoint whose waitForCompletion has returned, `others` the
      partner descriptions they set. */
  datatype Control<D> = Control(done: nat, stage: Stage, others: seq<D>)

  /** `requests`: on their way to the peer.  A match flushes the offered description towards the
      requester, so it travels by value: `descriptions`; `recvBuf` is where it lands and `got` the
      notification.  `sentNotes`, `sent`: the notification that the offer has left. */
  datatype State<D(==)> = State(ctl: map<Id, Control<D>>, queues: seq<Queues<Id>>, requests: multiset<Id>,
                            sendBuf: map<Id, D>, descriptions: multiset<(Id, D)>, recvBuf: map<Id, D>, got: set<Id>,
                            sentNotes: multiset<Id>, sent: set<Id>, failed: bool)

  datatype Action<D> =
    | Offer(e: Id) | Ask(e: Id) | Learn(e: Id) | Finish(e: Id)
    | DeliverRequest(e: Id) | DeliverDescription(e: Id, d: D) | DeliverSent(e: Id)

  ghost predicate Shape<D>(cfg: Config<D>, s: State<D>) {
    cfg.Valid() && s.ctl.Keys == cfg.ids && |s.queues| == cfg.p
  }

  ghost predicate Enabled<D>(cfg: Config<D>, s: State<D>, a: Action<D>)
    requires Shape(cfg, s)
  {
    match a
    case Offer(e) => e in cfg.ids && s.ctl[e].stage.Idle?
    case Ask(e) => e in cfg.ids && s.ctl[e].stage.Offered?
    case Learn(e) => e in cfg.ids && s.ctl[e].stage.Asked? && e in s.got && e in s.recvBuf
    case Finish(e) => e in cfg.ids && s.ctl[e].stage.Learned? && e in s.sent
    case DeliverRequest(e) => e in cfg.ids && e in s.requests
    case DeliverDescription(e, d) => e in cfg.ids && (e, d) in s.descriptions
    case DeliverSent(e) => e in cfg.ids && e in s.sentNotes
  }

  /** iSendRecvComm after a match; nothing otherwise. */
  ghost function Communicate<D>(s: State<D>, reply: Reply<Id>): State<D> {
    match reply
    case Match(src, rcv) =>
      if src in s.sendBuf then
        s.(descriptions := s.descriptions + multiset{(rcv, s.sendBuf[src])}, sentNotes := s.sentNotes + multiset{src})
      else s
    case Queued => s
    case Duplicate => s.(failed := true)
  }

  ghost function Request<D>(s: State<D>, e: Id): State<D>
    requires e.peer < |s.queues|
  {
    var (q, reply) := HandleRcv(s.queues[e.peer], RequestKey(e), e);
    Communicate(s.(queues := s.queues[e.peer := q]), reply)
  }

  ghost function Step<D>(cfg: Config<D>, s: State<D>, a: Action<D>): State<D>
    requires Shape(cfg, s) && Enabled(cfg, s, a)
  {
    var e, ctl := a.e, s.ctl[a.e];
    match a
    case Offer(_) =>
      var (q, reply) := HandleSrc(s.queues[e.owner], OfferKey(e), e);
      Communicate(s.(ctl := s.ctl[e := ctl.(stage := Offered)], sendBuf := s.sendBuf[e := cfg.local(e, ctl.done)],
                     queues := s.queues[e.owner := q]), reply)
    case Ask(_) =>
      var asked := s.(ctl := s.ctl[e := ctl.(stage := Asked)]);
      if e.peer == e.owner then Request(asked, e) else asked.(requests := s.requests + multiset{e})
    case Learn(_) =>
      s.(ctl := s.ctl[e := ctl.(stage := Learned, others := ctl.others + [s.recvBuf[e]])], got := s.got - {e})
    case Finish(_) => s.(ctl := s.ctl[e := ctl.(stage := Idle, done := ctl.done + 1)], sent := s.sent - {e})
    case DeliverRequest(_) => Request(s.(requests := s.requests - multiset{e}), e)
    case DeliverDescription(_, d) =>
      s.(descriptions := s.descriptions - multiset{(e, d)}, recvBuf := s.recvBuf[e := d], got := s.got + {e})
    case DeliverSent(_) => s.(sentNotes := s.sentNotes - multiset{e}, sent := s.sent + {e})
  }

  ghost predicate Init<D>(cfg: Config<D>, s: State<D>) {
    && Shape(cfg, s)
    && (forall e :: e in cfg.ids ==> s.ctl[e] == Control(0, Idle, []))
    && (forall x :: 0 <= x < cfg.p ==> s.queues[x] == Queues(map[], map[]))
    && s.requests == multiset{} && s.descriptions == multiset{} && s.sentNotes == multiset{}
    && s.sendBuf == map[] && s.recvBuf == map[] && s.got == {} && s.sent == {} && !s.failed
  }

  ghost predicate Transition<D(!new)>(cfg: Config<D>, s: State<D>, s': State<D>) {
    Shape(cfg, s) && exists a :: Enabled(cfg, s, a) && s' == Step(cfg, s, a)
  }

  ghost predicate IsRun<D(!new)>(cfg: Config<D>, run: seq<State<D>>) {
    && 0 < |run|
    && Init(cfg, run[0])
    && forall i :: 0 <= i < |run| - 1 ==> Transition(cfg, run[i], run[i + 1])
  }

  ghost predicate Reachable<D(!new)>(cfg: Config<D>, s: State<D>) {
    exists run :: IsRun(cfg, run) && run[|run| - 1] == s
  }
}
