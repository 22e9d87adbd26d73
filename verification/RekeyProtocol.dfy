/** In-tunnel rekey between an agent (initiator) and a gateway (responder) over a network that may
    lose, reorder, duplicate, replay and splice packets. */
module RekeyProtocol {
  import opened Wrappers
  import opened Bytes
  import opened Datagram
  import opened Session
  import RW = ReplayWindow

  datatype Frame =
    | RekeyFrame(newEpoch: nat, eph: nat, newIndex: u32)
    | RekeyAck(newEpoch: nat, ct: Ciphertext, newIndex: u32)
    | CloseFrame
    | OtherFrame(n: nat)

  /** The frame serialization is a parameter; all that is asked of it is that it loses nothing. */
  datatype Codec = Codec(enc: Frame -> seq<byte>, dec: seq<byte> -> Option<Frame>)

  ghost predicate Lossless(c: Codec) {
    forall f :: c.dec(c.enc(f)) == Some(f)
  }

  /** A packet on the network, with its clear header already split off. */
  datatype Sent = Sent(header: Header, body: Body)

  datatype Offer = Offer(eph: nat, index: u32)

  /** Both ends, the agent's queued rekey event, the offer made in its epoch and whether completing it
      has failed, every packet ever sent, and the next unused key pair and encapsulation randomness. */
  datatype Link = Link(agent: State, gateway: State, due: bool, pending: Option<Offer>, failed: bool,
                       sent: set<Sent>, ephs: nat, seeds: nat)

  /** The agent's pending-rekey slot, which a failed completion leaves empty. */
  function Slot(l: Link): Option<Offer> {
    if l.failed then None else l.pending
  }

  // ---------- steps ----------

  /** A send can fail before sealing, fail after sealing, or put the packet on the network. */
  datatype Attempt = NotSealed | NotSent | OnTheWire

  datatype Emitted = Emitted(state: State, sent: set<Sent>, ok: bool)

  function Emit(s: State, inner: Inner, attempt: Attempt, sent: set<Sent>): Emitted {
    var r := Sealing(s, inner);
    if attempt.NotSealed? || r.Err? then Emitted(s, sent, false)
    else if attempt.NotSent? then Emitted(r.value.0, sent, false)
    else Emitted(r.value.0, sent + {Sent(HeaderFor(s), r.value.1.body)}, true)
  }

  function FrameOf(c: Codec, inner: Inner): Option<Frame> {
    if inner.Control? then c.dec(inner.frame) else None
  }

  predicate Unbound(s: State, index: u32) { index != 0 && index !in Indexes(s) }

  /** The timer asks for a rekey once: the flag stays up until the session rotates or the attempt fails. */
  function TimerFires(l: Link): Link {
    if l.agent.closed || l.agent.rekeyPending then l
    else l.(agent := l.agent.(rekeyPending := true), due := true)
  }

  function OfferOutcome(l: Link, e: Emitted, index: u32): Link {
    if e.ok then l.(agent := e.state, sent := e.sent, due := false, pending := Some(Offer(l.ephs, index)),
                    failed := false, ephs := l.ephs + 1)
    else l.(agent := e.state.(rekeyPending := false), due := false)
  }

  function HandleDue(c: Codec, l: Link, attempt: Attempt, index: u32): Link {
    if !l.due then l else
    if !Unbound(l.agent, index) then l.(agent := l.agent.(rekeyPending := false), due := false) else
    var frame := RekeyFrame(l.agent.epoch + 1, l.ephs, index);
    OfferOutcome(l, Emit(l.agent, Control(c.enc(frame)), attempt, l.sent), index)
  }

  function AnswerOutcome(l: Link, e: Emitted, f: Frame, index: u32, now: nat): Link
    requires f.RekeyFrame?
  {
    var next := Rekey(l.gateway.current.keys, Agreed(f.eph, l.seeds));
    if e.ok then l.(gateway := Rotated(e.state, next, index, f.newIndex, now), sent := e.sent, seeds := l.seeds + 1)
    else l.(gateway := e.state, seeds := l.seeds + 1)
  }

  /** Answer under the current epoch, then rotate: the peer must be able to read the answer. */
  function AnswerRekey(c: Codec, l: Link, f: Frame, attempt: Attempt, index: u32, now: nat): Link
    requires f.RekeyFrame?
  {
    if !Unbound(l.gateway, index) then l else
    var ack := RekeyAck(f.newEpoch, Encapsulated(f.eph, l.seeds), index);
    AnswerOutcome(l, Emit(l.gateway, Control(c.enc(ack)), attempt, l.sent), f, index, now)
  }

  /** The slot is emptied first; only then is the answer decapsulated, which may fail. */
  function CompleteRekey(l: Link, f: Frame, completes: bool, now: nat): Link
    requires f.RekeyAck?
  {
    match Slot(l)
    case None => l
    case Some(offer) =>
      if !completes then l.(failed := true) else
      var next := Rekey(l.agent.current.keys, Decapsulate(offer.eph, f.ct));
      l.(agent := Rotated(l.agent, next, offer.index, f.newIndex, now), pending := None)
  }

  function GatewayReceives(c: Codec, l: Link, h: Header, body: Body, attempt: Attempt, index: u32, now: nat): Link {
    var (g, r) := Opening(l.gateway, h, body);
    var l' := l.(gateway := g);
    if r.Err? then l' else
    match FrameOf(c, r.value)
    case Some(RekeyFrame(n, eph, i)) => AnswerRekey(c, l', RekeyFrame(n, eph, i), attempt, index, now)
    case Some(CloseFrame) => l'.(gateway := g.(closed := true))
    case _ => l'
  }

  function AgentReceives(c: Codec, l: Link, h: Header, body: Body, completes: bool, now: nat): Link {
    var (a, r) := Opening(l.agent, h, body);
    var l' := l.(agent := a);
    if r.Err? then l' else
    match FrameOf(c, r.value)
    case Some(RekeyAck(n, ct, i)) => CompleteRekey(l', RekeyAck(n, ct, i), completes, now)
    case Some(CloseFrame) => l'.(agent := a.(closed := true))
    case _ => l'
  }

  datatype Event =
    | Timer
    | Due(attempt: Attempt, index: u32)
    | ToGateway(header: Header, body: Body, attempt: Attempt, index: u32, now: nat)
    | ToAgent(header: Header, body: Body, completes: bool, now: nat)
    | AgentSends(inner: Inner, attempt: Attempt)
    | GatewaySends(inner: Inner, attempt: Attempt)
    | AgentExpires(overlap: nat, now: nat)
    | GatewayExpires(overlap: nat, now: nat)
    | AgentCloses
    | GatewayCloses

  /** The network delivers any body that was sent, under any header, or junk of its own. */
  predicate Deliverable(l: Link, body: Body) {
    body.Junk? || exists p | p in l.sent :: p.body == body
  }

  /** Outside the exchange itself, neither end sends rekey frames. */
  predicate Ordinary(c: Codec, inner: Inner) {
    match FrameOf(c, inner)
    case Some(RekeyFrame(_, _, _)) => false
    case Some(RekeyAck(_, _, _)) => false
    case _ => true
  }

  function Step(c: Codec, l: Link, ev: Event): Link {
    match ev
    case Timer => TimerFires(l)
    case Due(attempt, index) => HandleDue(c, l, attempt, index)
    case ToGateway(h, body, attempt, index, now) =>
      if Deliverable(l, body) then GatewayReceives(c, l, h, body, attempt, index, now) else l
    case ToAgent(h, body, completes, now) =>
      if Deliverable(l, body) then AgentReceives(c, l, h, body, completes, now) else l
    case AgentSends(inner, attempt) =>
      if !Ordinary(c, inner) then l else
      var e := Emit(l.agent, inner, attempt, l.sent);
      l.(agent := e.state, sent := e.sent)
    case GatewaySends(inner, attempt) =>
      if !Ordinary(c, inner) then l else
      var e := Emit(l.gateway, inner, attempt, l.sent);
      l.(gateway := e.state, sent := e.sent)
    case AgentExpires(overlap, now) => l.(agent := Expired(l.agent, overlap, now).0)
    case GatewayExpires(overlap, now) => l.(gateway := Expired(l.gateway, overlap, now).0)
    case AgentCloses => l.(agent := l.agent.(closed := true))
    case GatewayCloses => l.(gateway := l.gateway.(closed := true))
  }

  /** A freshly established session: same keys, crossed indexes, nothing sent. */
  function NewLink(n: nat, agentIndex: u32, gatewayIndex: u32, now: nat): Link {
    var keys := SessionKeys(Secret.Established(n), 0);
    Link(NewState(Initiator, keys, agentIndex, gatewayIndex, now),
         NewState(Responder, keys, gatewayIndex, agentIndex, now), false, None, false, {}, 0, 0)
  }

  function Run(c: Codec, start: Link, evs: seq<Event>): Link {
    if evs == [] then start else Step(c, Run(c, start, evs[..|evs| - 1]), evs[|evs| - 1])
  }

  // ---------- the invariant ----------

  predicate SlotOk(role: Role, e: Epoch) {
    e.cipher.send == SendKey(e.keys, role) && e.cipher.recv == RecvKey(e.keys, role)
  }

  predicate SideOk(s: State, role: Role) {
    && s.role == role && SlotOk(role, s.current) && s.epoch == s.current.keys.epoch
    && (s.previous.Some? ==>
          var p := s.previous.value.epoch;
          SlotOk(role, p) && p.keys.epoch + 1 == s.epoch && p.local != s.current.local)
  }

  /** Two ends of one epoch: the same keys and crossed indexes. */
  predicate Paired(x: Epoch, y: Epoch) {
    x.keys == y.keys && x.local == y.remote && x.remote == y.local
  }

  function SeedOf(k: SessionKeys): nat {
    if k.secret.Rekeyed? && k.secret.shared.Agreed? then k.secret.shared.seed else 0
  }

  predicate Level(l: Link) {
    && l.gateway.epoch == l.agent.epoch && Paired(l.agent.current, l.gateway.current)
    && (l.agent.previous.Some? && l.gateway.previous.Some? ==>
          Paired(l.agent.previous.value.epoch, l.gateway.previous.value.epoch))
  }

  /** The gateway has rotated and the agent has not heard yet. */
  predicate Ahead(l: Link) {
    && l.gateway.epoch == l.agent.epoch + 1 && l.pending.Some?
    && l.gateway.current.keys
       == Rekey(l.agent.current.keys, Agreed(l.pending.value.eph, SeedOf(l.gateway.current.keys)))
    && l.gateway.current.remote == l.pending.value.index
    && (l.gateway.previous.Some? ==> Paired(l.agent.current, l.gateway.previous.value.epoch))
  }

  predicate PendingOk(l: Link) {
    && (l.pending.Some? ==> l.agent.rekeyPending && !l.due && l.pending.value.index !in Indexes(l.agent))
    && (l.due ==> l.agent.rekeyPending)
  }

  predicate EndsOk(l: Link) {
    SideOk(l.agent, Initiator) && SideOk(l.gateway, Responder) && (Level(l) || Ahead(l)) && PendingOk(l)
  }

  predicate Addressed(p: Sent, e: Epoch) {
    p.body.Sealed? && (p.body.key == e.cipher.recv ==> p.header.receiverIndex == e.local)
  }

  predicate SentUnder(p: Sent, e: Epoch) {
    p.body.Sealed? && (p.body.key == e.cipher.send ==>
                         p.header.receiverIndex == e.remote && p.body.nonce < e.cipher.counter)
  }

  /** What is known of every packet on the network. */
  predicate PacketOk(l: Link, p: Sent) {
    && p.body.Sealed? && p.body.aad == EncodeHeader(p.header) && p.body.nonce == p.header.counter
    && DecodeInner(p.body.plaintext).Ok?
    && p.body.key.keys.epoch <= (if p.body.key.dir.I2R? then l.agent.epoch else l.gateway.epoch)
    && SentUnder(p, l.agent.current) && SentUnder(p, l.gateway.current)
    && Addressed(p, l.agent.current) && Addressed(p, l.gateway.current)
    && (l.agent.previous.Some? ==> Addressed(p, l.agent.previous.value.epoch))
    && (l.gateway.previous.Some? ==> Addressed(p, l.gateway.previous.value.epoch))
  }

  ghost predicate NetworkOk(l: Link) {
    forall p :: p in l.sent ==> PacketOk(l, p)
  }

  function FrameIn(c: Codec, p: Sent): Option<Frame> {
    if p.body.Sealed? && DecodeInner(p.body.plaintext).Ok?
    then FrameOf(c, DecodeInner(p.body.plaintext).value)
    else None
  }

  predicate IsRekey(c: Codec, p: Sent) {
    p.body.Sealed? && FrameIn(c, p).Some? && FrameIn(c, p).value.RekeyFrame?
  }

  predicate IsAck(c: Codec, p: Sent) {
    p.body.Sealed? && FrameIn(c, p).Some? && FrameIn(c, p).value.RekeyAck?
  }

  /** A slot that was rotated away from will never again accept this packet. */
  predicate Spent(s: State, p: Sent) {
    p.body.Sealed? && (s.previous.Some? && p.body.key == s.previous.value.epoch.cipher.recv ==>
                         RW.Refuses(s.previous.value.epoch.cipher.window, p.body.nonce))
  }

  predicate RekeyOk(c: Codec, l: Link, p: Sent)
    requires IsRekey(c, p)
  {
    var f := FrameIn(c, p).value;
    && p.body.key.dir.I2R? && Spent(l.gateway, p)
    && (p.body.key == l.agent.current.cipher.send ==> l.pending == Some(Offer(f.eph, f.newIndex)))
  }

  predicate AckOk(c: Codec, l: Link, p: Sent)
    requires IsAck(c, p)
  {
    var f := FrameIn(c, p).value;
    && p.body.key.dir.R2I? && Spent(l.agent, p) && p.body.key.keys.epoch < l.gateway.epoch
    && (p.body.key == l.agent.current.cipher.recv ==>
          && l.pending.Some? && f.ct == Encapsulated(l.pending.value.eph, SeedOf(l.gateway.current.keys))
          && f.newIndex == l.gateway.current.local)
  }

  ghost predicate FramesOk(c: Codec, l: Link) {
    && (forall p :: p in l.sent && IsRekey(c, p) ==> RekeyOk(c, l, p))
    && (forall p :: p in l.sent && IsAck(c, p) ==> AckOk(c, l, p))
  }

  /** At most one rekey offer, and at most one answer, is ever sent in an epoch. */
  ghost predicate OncePerEpoch(c: Codec, l: Link) {
    && (forall p, q :: p in l.sent && q in l.sent && IsRekey(c, p) && IsRekey(c, q) ==>
                         (p.body.key == q.body.key ==> p == q))
    && (forall p, q :: p in l.sent && q in l.sent && IsAck(c, p) && IsAck(c, q) ==>
                         (p.body.key == q.body.key ==> p == q))
  }

  predicate Behind(w: RW.Window, counter: nat) {
    w.highest.Some? ==> w.highest.value < counter
  }

  /** No window has run past the counter of the end that feeds it. */
  predicate WindowsOk(l: Link) {
    if l.gateway.epoch == l.agent.epoch then
      && Behind(l.gateway.current.cipher.window, l.agent.current.cipher.counter)
      && Behind(l.agent.current.cipher.window, l.gateway.current.cipher.counter)
    else
      && l.gateway.current.cipher.window.highest == None
      && (l.gateway.previous.Some? ==>
            Behind(l.gateway.previous.value.epoch.cipher.window, l.agent.current.cipher.counter))
  }

  ghost predicate Inv(c: Codec, l: Link) {
    EndsOk(l) && NetworkOk(l) && FramesOk(c, l) && OncePerEpoch(c, l) && WindowsOk(l)
  }

  // ---------- what sealing, opening, expiring and closing leave in place ----------

  ghost predicate EpochEvolves(e: Epoch, e': Epoch) {
    && e'.local == e.local && e'.remote == e.remote && e'.keys == e.keys
    && e'.cipher.send == e.cipher.send && e'.cipher.recv == e.cipher.recv && e'.cipher.counter >= e.cipher.counter
    && forall n: nat :: RW.Refuses(e.cipher.window, n) ==> RW.Refuses(e'.cipher.window, n)
  }

  /** The same epochs with later counters and windows; the previous one may be gone. */
  ghost predicate Evolves(s: State, s': State) {
    && s'.role == s.role && s'.epoch == s.epoch && EpochEvolves(s.current, s'.current)
    && (s'.previous.Some? ==> s.previous.Some? && EpochEvolves(s.previous.value.epoch, s'.previous.value.epoch))
  }

  lemma OpeningEvolves(s: State, h: Header, body: Body)
    ensures Evolves(s, Opening(s, h, body).0) && Opening(s, h, body).0.rekeyPending == s.rekeyPending
  {
    forall w: RW.Window, n: nat, d: nat | RW.Refuses(w, n) && RW.Update(w, d).Ok?
      ensures RW.Refuses(RW.Update(w, d).value, n)
    {
      RW.RefusedForever(w, n, d);
    }
  }

  lemma EvolvesEnds(l: Link, l': Link)
    requires EndsOk(l) && Evolves(l.agent, l'.agent) && Evolves(l.gateway, l'.gateway)
    requires l'.pending == l.pending && PendingOk(l')
    ensures EndsOk(l')
  {
  }

  lemma EvolvesPacket(c: Codec, l: Link, l': Link, p: Sent)
    requires EndsOk(l) && Evolves(l.agent, l'.agent) && Evolves(l.gateway, l'.gateway) && l'.pending == l.pending
    requires PacketOk(l, p) && (IsRekey(c, p) ==> RekeyOk(c, l, p)) && (IsAck(c, p) ==> AckOk(c, l, p))
    ensures PacketOk(l', p) && (IsRekey(c, p) ==> RekeyOk(c, l', p)) && (IsAck(c, p) ==> AckOk(c, l', p))
  {
  }

  lemma EvolvesKeeps(c: Codec, l: Link, l': Link)
    requires Inv(c, l) && Evolves(l.agent, l'.agent) && Evolves(l.gateway, l'.gateway)
    requires l'.pending == l.pending && PendingOk(l') && l'.sent == l.sent && WindowsOk(l')
    ensures Inv(c, l')
  {
    EvolvesEnds(l, l');
    forall p | p in l.sent
      ensures PacketOk(l', p) && (IsRekey(c, p) ==> RekeyOk(c, l', p)) && (IsAck(c, p) ==> AckOk(c, l', p))
    {
      EvolvesPacket(c, l, l', p);
    }
  }

  // ---------- one more packet ----------

  /** `p` was sealed by the end that holds `e` as its current epoch. */
  predicate SealedBy(p: Sent, e: Epoch) {
    && p.body.Sealed? && p.body.aad == EncodeHeader(p.header) && p.body.nonce == p.header.counter
    && p.body.key == e.cipher.send && p.header.receiverIndex == e.remote
    && p.body.nonce < e.cipher.counter && DecodeInner(p.body.plaintext).Ok?
  }

  /** Only the send counter has moved. */
  predicate Counted(s: State, s': State) {
    && s'.current.cipher.counter >= s.current.cipher.counter
    && s' == s.(current := s.current.(cipher := s.current.cipher.(counter := s'.current.cipher.counter)))
  }

  lemma EmitResult(c: Codec, s: State, inner: Inner, attempt: Attempt, sent: set<Sent>) returns (p: Sent)
    ensures var e := Emit(s, inner, attempt, sent);
            && Counted(s, e.state) && e.sent == (if e.ok then sent + {p} else sent)
            && (e.ok ==> && SealedBy(p, e.state.current) && FrameIn(c, p) == FrameOf(c, inner)
                         && p.body.nonce == s.current.cipher.counter)
  {
    p := Sent(HeaderFor(s), Junk([]));
    if Sealing(s, inner).Ok? {
      p := p.(body := Sealing(s, inner).value.1.body);
      InnerRoundTrip(inner);
    }
  }

  lemma CountedEvolves(s: State, s': State)
    requires Counted(s, s')
    ensures Evolves(s, s')
  {
  }

  /** A packet either end seals fits the invariant wherever the other holds its key. */
  lemma SealedPacketOk(l: Link, p: Sent)
    requires EndsOk(l) && (SealedBy(p, l.agent.current) || SealedBy(p, l.gateway.current))
    ensures PacketOk(l, p)
  {
  }

  lemma OnceAdded(c: Codec, l: Link, l': Link, p: Sent)
    requires OncePerEpoch(c, l) && l'.sent == l.sent + {p} && p.body.Sealed?
    requires forall q :: q in l.sent && IsRekey(c, q) && IsRekey(c, p) ==> q.body.key != p.body.key
    requires forall q :: q in l.sent && IsAck(c, q) && IsAck(c, p) ==> q.body.key != p.body.key
    ensures OncePerEpoch(c, l')
  {
  }

  lemma OrdinaryAdded(c: Codec, l: Link, p: Sent)
    requires Inv(c, l) && PacketOk(l, p) && !IsRekey(c, p) && !IsAck(c, p)
    ensures Inv(c, l.(sent := l.sent + {p}))
  {
    var l' := l.(sent := l.sent + {p});
    forall q | q in l'.sent
      ensures PacketOk(l', q) && (IsRekey(c, q) ==> RekeyOk(c, l', q)) && (IsAck(c, q) ==> AckOk(c, l', q))
    {
      assert q == p || q in l.sent;
    }
    OnceAdded(c, l, l', p);
  }

  /** Counters may move and one ordinary packet may appear. */
  lemma SendKeeps(c: Codec, l: Link, a: State, g: State)
    requires Inv(c, l) && Counted(l.agent, a) && Counted(l.gateway, g)
    ensures Inv(c, l.(agent := a, gateway := g))
  {
    CountedEvolves(l.agent, a);
    CountedEvolves(l.gateway, g);
    EvolvesKeeps(c, l, l.(agent := a, gateway := g));
  }

  lemma OrdinarySent(c: Codec, l: Link, a: State, g: State, p: Sent)
    requires Inv(c, l) && Counted(l.agent, a) && Counted(l.gateway, g)
    requires (SealedBy(p, a.current) || SealedBy(p, g.current)) && !IsRekey(c, p) && !IsAck(c, p)
    ensures Inv(c, l.(agent := a, gateway := g, sent := l.sent + {p}))
  {
    var l' := l.(agent := a, gateway := g);
    SendKeeps(c, l, a, g);
    SealedPacketOk(l', p);
    OrdinaryAdded(c, l', p);
  }

  lemma AgentSendsKeeps(c: Codec, l: Link, inner: Inner, attempt: Attempt)
    requires Inv(c, l) && Ordinary(c, inner)
    ensures var e := Emit(l.agent, inner, attempt, l.sent); Inv(c, l.(agent := e.state, sent := e.sent))
  {
    var e := Emit(l.agent, inner, attempt, l.sent);
    var p := EmitResult(c, l.agent, inner, attempt, l.sent);
    if e.ok { OrdinarySent(c, l, e.state, l.gateway, p); } else { SendKeeps(c, l, e.state, l.gateway); }
  }

  lemma GatewaySendsKeeps(c: Codec, l: Link, inner: Inner, attempt: Attempt)
    requires Inv(c, l) && Ordinary(c, inner)
    ensures var e := Emit(l.gateway, inner, attempt, l.sent); Inv(c, l.(gateway := e.state, sent := e.sent))
  {
    var e := Emit(l.gateway, inner, attempt, l.sent);
    var p := EmitResult(c, l.gateway, inner, attempt, l.sent);
    if e.ok { OrdinarySent(c, l, l.agent, e.state, p); } else { SendKeeps(c, l, l.agent, e.state); }
  }

  // ---------- the offer ----------

  lemma OfferPending(c: Codec, l: Link, offer: Offer)
    requires Inv(c, l) && l.agent.rekeyPending && !l.due && l.pending == None && Unbound(l.agent, offer.index)
    ensures Inv(c, l.(pending := Some(offer)))
    ensures forall p :: p in l.sent && IsRekey(c, p) ==> p.body.key != l.agent.current.cipher.send
  {
    var l' := l.(pending := Some(offer));
    assert EndsOk(l');
    forall p | p in l.sent
      ensures PacketOk(l', p) && (IsRekey(c, p) ==> RekeyOk(c, l', p)) && (IsAck(c, p) ==> AckOk(c, l', p))
    {
      assert PacketOk(l, p);
    }
  }

  lemma RekeyAdded(c: Codec, l: Link, p: Sent)
    requires Inv(c, l) && PacketOk(l, p) && IsRekey(c, p) && p.body.key == l.agent.current.cipher.send
    requires l.pending == Some(Offer(FrameIn(c, p).value.eph, FrameIn(c, p).value.newIndex))
    requires Level(l) && forall q :: q in l.sent && IsRekey(c, q) ==> q.body.key != p.body.key
    ensures Inv(c, l.(sent := l.sent + {p}))
  {
    var l' := l.(sent := l.sent + {p});
    forall q | q in l'.sent
      ensures PacketOk(l', q) && (IsRekey(c, q) ==> RekeyOk(c, l', q)) && (IsAck(c, q) ==> AckOk(c, l', q))
    {
      assert q == p || q in l.sent;
    }
    OnceAdded(c, l, l', p);
  }

  /** Neither the slot nor the supply of new key pairs and randomness is looked at. */
  lemma SuppliesKeep(c: Codec, l: Link, failed: bool, ephs: nat, seeds: nat)
    requires Inv(c, l)
    ensures Inv(c, l.(failed := failed, ephs := ephs, seeds := seeds))
  {
  }

  lemma OfferCleared(c: Codec, l: Link, a: State, pending: bool)
    requires Inv(c, l) && l.due && Counted(l.agent, a)
    ensures Inv(c, l.(agent := a.(rekeyPending := pending), due := false))
  {
    CountedEvolves(l.agent, a);
    EvolvesKeeps(c, l, l.(agent := a.(rekeyPending := pending), due := false));
  }

  /** The offer packet and the pending offer appear together. */
  lemma OfferAdded(c: Codec, l: Link, offer: Offer, p: Sent)
    requires Inv(c, l) && l.agent.rekeyPending && !l.due && l.pending == None && Unbound(l.agent, offer.index)
    requires SealedBy(p, l.agent.current)
    requires IsRekey(c, p) && offer == Offer(FrameIn(c, p).value.eph, FrameIn(c, p).value.newIndex)
    ensures Inv(c, l.(pending := Some(offer), sent := l.sent + {p}))
  {
    OfferPending(c, l, offer);
    SealedPacketOk(l.(pending := Some(offer)), p);
    RekeyAdded(c, l.(pending := Some(offer)), p);
  }

  lemma OfferSent(c: Codec, l: Link, a: State, offer: Offer, p: Sent)
    requires Inv(c, l) && l.due && Counted(l.agent, a) && Unbound(l.agent, offer.index) && SealedBy(p, a.current)
    requires IsRekey(c, p) && offer == Offer(FrameIn(c, p).value.eph, FrameIn(c, p).value.newIndex)
    ensures Inv(c, l.(agent := a, due := false, pending := Some(offer), failed := false,
                      sent := l.sent + {p}, ephs := l.ephs + 1))
  {
    var l1 := l.(agent := a, due := false, failed := false, ephs := l.ephs + 1);
    assert Inv(c, l1) by {
      OfferCleared(c, l, a, true);
      SuppliesKeep(c, l.(agent := a, due := false), false, l.ephs + 1, l.seeds);
    }
    OfferAdded(c, l1, offer, p);
  }

  lemma OfferOutcomeKeeps(c: Codec, l: Link, e: Emitted, index: u32, p: Sent)
    requires Inv(c, l) && l.due && Unbound(l.agent, index) && Counted(l.agent, e.state)
    requires e.ok ==> e.sent == l.sent + {p} && SealedBy(p, e.state.current)
                      && IsRekey(c, p) && FrameIn(c, p).value.eph == l.ephs && FrameIn(c, p).value.newIndex == index
    ensures Inv(c, OfferOutcome(l, e, index))
  {
    if e.ok { OfferSent(c, l, e.state, Offer(l.ephs, index), p); } else { OfferCleared(c, l, e.state, false); }
  }

  lemma EmitOffer(c: Codec, l: Link, attempt: Attempt, index: u32) returns (e: Emitted, p: Sent)
    requires Lossless(c)
    ensures l.due && Unbound(l.agent, index) ==> HandleDue(c, l, attempt, index) == OfferOutcome(l, e, index)
    ensures Counted(l.agent, e.state)
    ensures e.ok ==> e.sent == l.sent + {p} && SealedBy(p, e.state.current)
                     && IsRekey(c, p) && FrameIn(c, p).value.eph == l.ephs && FrameIn(c, p).value.newIndex == index
  {
    var frame := RekeyFrame(l.agent.epoch + 1, l.ephs, index);
    e := Emit(l.agent, Control(c.enc(frame)), attempt, l.sent);
    p := EmitResult(c, l.agent, Control(c.enc(frame)), attempt, l.sent);
    assert c.dec(c.enc(frame)) == Some(frame);
  }

  lemma HandleDueKeeps(c: Codec, l: Link, attempt: Attempt, index: u32)
    requires Lossless(c) && Inv(c, l)
    ensures Inv(c, HandleDue(c, l, attempt, index))
  {
    if l.due {
      if Unbound(l.agent, index) {
        var e, p := EmitOffer(c, l, attempt, index);
        OfferOutcomeKeeps(c, l, e, index, p);
      } else {
        OfferCleared(c, l, l.agent, false);
      }
    }
  }

  // ---------- the answer ----------

  /** The offer a gateway has just read is the agent's pending one, made in the epoch both are in. */
  predicate Offered(c: Codec, l: Link, q: Sent) {
    && q in l.sent && IsRekey(c, q) && q.body.key == l.gateway.current.cipher.recv
    && RW.Refuses(l.gateway.current.cipher.window, q.body.nonce)
  }

  lemma OfferIsPending(c: Codec, l: Link, q: Sent)
    requires Inv(c, l) && Offered(c, l, q)
    ensures Level(l) && l.pending == Some(Offer(FrameIn(c, q).value.eph, FrameIn(c, q).value.newIndex))
  {
    assert PacketOk(l, q) && RekeyOk(c, l, q);
  }

  function Answered(l: Link, f: Frame, index: u32, now: nat): Link
    requires f.RekeyFrame?
  {
    l.(gateway := Rotated(l.gateway, Rekey(l.gateway.current.keys, Agreed(f.eph, l.seeds)), index, f.newIndex, now))
  }

  predicate IsAnswer(c: Codec, l: Link, f: Frame, index: u32, p: Sent)
    requires f.RekeyFrame?
  {
    && SealedBy(p, l.gateway.current)
    && FrameIn(c, p) == Some(RekeyAck(f.newEpoch, Encapsulated(f.eph, l.seeds), index))
  }

  lemma AnswerOldPacket(c: Codec, l: Link, q: Sent, index: u32, now: nat, p: Sent)
    requires Inv(c, l) && Offered(c, l, q) && Unbound(l.gateway, index) && p in l.sent
    ensures var l' := Answered(l, FrameIn(c, q).value, index, now);
            && PacketOk(l', p) && (IsRekey(c, p) ==> RekeyOk(c, l', p)) && (IsAck(c, p) ==> AckOk(c, l', p))
            && (IsAck(c, p) ==> p.body.key != l.gateway.current.cipher.send)
  {
    OfferIsPending(c, l, q);
    assert PacketOk(l, p) && PacketOk(l, q);
    if IsRekey(c, p) && p.body.key == l.gateway.current.cipher.recv { assert p == q; }
  }

  lemma AnswerNewPacket(c: Codec, l: Link, q: Sent, index: u32, now: nat, p: Sent)
    requires Inv(c, l) && Offered(c, l, q) && Unbound(l.gateway, index) && IsAnswer(c, l, FrameIn(c, q).value, index, p)
    ensures var l' := Answered(l, FrameIn(c, q).value, index, now); PacketOk(l', p) && AckOk(c, l', p) && !IsRekey(c, p)
  {
    OfferIsPending(c, l, q);
  }

  lemma AnswerEnds(c: Codec, l: Link, q: Sent, index: u32, now: nat)
    requires Inv(c, l) && Offered(c, l, q) && Unbound(l.gateway, index)
    ensures var l' := Answered(l, FrameIn(c, q).value, index, now); EndsOk(l') && WindowsOk(l')
  {
    OfferIsPending(c, l, q);
    assert l.gateway.current.local in Indexes(l.gateway);
    var l' := Answered(l, FrameIn(c, q).value, index, now);
    assert Ahead(l');
  }

  lemma AnswerAdded(c: Codec, l: Link, q: Sent, index: u32, now: nat, p: Sent)
    requires Inv(c, l) && Offered(c, l, q) && Unbound(l.gateway, index) && IsAnswer(c, l, FrameIn(c, q).value, index, p)
    ensures Inv(c, Answered(l, FrameIn(c, q).value, index, now).(sent := l.sent + {p}))
  {
    var l1 := Answered(l, FrameIn(c, q).value, index, now);
    var l' := l1.(sent := l.sent + {p});
    AnswerEnds(c, l, q, index, now);
    forall r | r in l'.sent
      ensures PacketOk(l', r) && (IsRekey(c, r) ==> RekeyOk(c, l', r)) && (IsAck(c, r) ==> AckOk(c, l', r))
      ensures r != p && IsAck(c, r) ==> r.body.key != p.body.key
    {
      if r == p { AnswerNewPacket(c, l, q, index, now, p); } else { AnswerOldPacket(c, l, q, index, now, r); }
    }
    AnswerNewPacket(c, l, q, index, now, p);
    OnceAdded(c, l, l', p);
  }

  lemma AnswerSent(c: Codec, l: Link, g: State, q: Sent, index: u32, now: nat, p: Sent)
    requires Inv(c, l) && Counted(l.gateway, g) && Offered(c, l, q) && Unbound(l.gateway, index)
    requires IsAnswer(c, l.(gateway := g), FrameIn(c, q).value, index, p)
    ensures var l' := Answered(l.(gateway := g), FrameIn(c, q).value, index, now);
            Inv(c, l'.(sent := l.sent + {p}, seeds := l.seeds + 1))
  {
    var l' := Answered(l.(gateway := g), FrameIn(c, q).value, index, now).(sent := l.sent + {p});
    assert Inv(c, l') by {
      SendKeeps(c, l, l.agent, g);
      AnswerAdded(c, l.(gateway := g), q, index, now, p);
    }
    SuppliesKeep(c, l', l.failed, l.ephs, l.seeds + 1);
  }

  lemma AnswerFails(c: Codec, l: Link, g: State)
    requires Inv(c, l) && Counted(l.gateway, g)
    ensures Inv(c, l.(gateway := g, seeds := l.seeds + 1))
  {
    SendKeeps(c, l, l.agent, g);
    SuppliesKeep(c, l.(gateway := g), l.failed, l.ephs, l.seeds + 1);
  }

  lemma AnswerOutcomeKeeps(c: Codec, l: Link, e: Emitted, q: Sent, index: u32, now: nat, p: Sent)
    requires Inv(c, l) && Offered(c, l, q) && Unbound(l.gateway, index) && Counted(l.gateway, e.state)
    requires e.ok ==> e.sent == l.sent + {p} && IsAnswer(c, l.(gateway := e.state), FrameIn(c, q).value, index, p)
    ensures Inv(c, AnswerOutcome(l, e, FrameIn(c, q).value, index, now))
  {
    if e.ok { AnswerSent(c, l, e.state, q, index, now, p); } else { AnswerFails(c, l, e.state); }
  }

  lemma AnswerKeeps(c: Codec, l: Link, q: Sent, attempt: Attempt, index: u32, now: nat)
    requires Lossless(c) && Inv(c, l) && Offered(c, l, q)
    ensures Inv(c, AnswerRekey(c, l, FrameIn(c, q).value, attempt, index, now))
  {
    if Unbound(l.gateway, index) {
      var f := FrameIn(c, q).value;
      var inner := Control(c.enc(RekeyAck(f.newEpoch, Encapsulated(f.eph, l.seeds), index)));
      var p := EmitResult(c, l.gateway, inner, attempt, l.sent);
      AnswerOutcomeKeeps(c, l, Emit(l.gateway, inner, attempt, l.sent), q, index, now, p);
    }
  }

  // ---------- the completion ----------

  predicate Acked(c: Codec, l: Link, q: Sent) {
    && q in l.sent && IsAck(c, q) && q.body.key == l.agent.current.cipher.recv
    && RW.Refuses(l.agent.current.cipher.window, q.body.nonce)
  }

  lemma AckIsAnswer(c: Codec, l: Link, q: Sent)
    requires Inv(c, l) && Acked(c, l, q)
    ensures Ahead(l) && FrameIn(c, q).value.newIndex == l.gateway.current.local
    ensures Decapsulate(l.pending.value.eph, FrameIn(c, q).value.ct)
            == Agreed(l.pending.value.eph, SeedOf(l.gateway.current.keys))
  {
    assert PacketOk(l, q) && AckOk(c, l, q);
  }

  /** The agent's part of the exchange, done. */
  function Completed(l: Link, f: Frame, now: nat): Link
    requires f.RekeyAck? && l.pending.Some?
  {
    var next := Rekey(l.agent.current.keys, Decapsulate(l.pending.value.eph, f.ct));
    l.(agent := Rotated(l.agent, next, l.pending.value.index, f.newIndex, now), pending := None)
  }

  lemma CompletePacket(c: Codec, l: Link, q: Sent, now: nat, p: Sent)
    requires Inv(c, l) && Acked(c, l, q) && p in l.sent && l.pending.Some?
    ensures var l' := Completed(l, FrameIn(c, q).value, now);
            PacketOk(l', p) && (IsRekey(c, p) ==> RekeyOk(c, l', p)) && (IsAck(c, p) ==> AckOk(c, l', p))
  {
    AckIsAnswer(c, l, q);
    assert PacketOk(l, p) && PacketOk(l, q);
    if IsAck(c, p) && p.body.key == l.agent.current.cipher.recv { assert p == q; }
  }

  lemma CompletedKeeps(c: Codec, l: Link, q: Sent, now: nat)
    requires Inv(c, l) && Acked(c, l, q) && l.pending.Some?
    ensures Inv(c, Completed(l, FrameIn(c, q).value, now)) && Level(Completed(l, FrameIn(c, q).value, now))
  {
    var l' := Completed(l, FrameIn(c, q).value, now);
    AckIsAnswer(c, l, q);
    assert l.agent.current.local in Indexes(l.agent);
    assert EndsOk(l');
    forall p | p in l.sent
      ensures PacketOk(l', p) && (IsRekey(c, p) ==> RekeyOk(c, l', p)) && (IsAck(c, p) ==> AckOk(c, l', p))
    {
      CompletePacket(c, l, q, now, p);
    }
  }

  /** Taking the answer, also when completing fails, keeps the invariant; completing levels the ends. */
  lemma CompleteKeeps(c: Codec, l: Link, q: Sent, completes: bool, now: nat)
    requires Inv(c, l) && Acked(c, l, q)
    ensures Inv(c, CompleteRekey(l, FrameIn(c, q).value, completes, now))
    ensures completes && Slot(l).Some? ==> Level(CompleteRekey(l, FrameIn(c, q).value, completes, now))
  {
    if completes && Slot(l).Some? {
      CompletedKeeps(c, l, q, now);
    } else {
      SuppliesKeep(c, l, true, l.ephs, l.seeds);
    }
  }

  // ---------- delivery ----------

  /** Only what the other end sent, under the very header it sent it with, is ever opened; it then
      opens to what was sealed, and the slot it came through will not open it again. */
  lemma OpenedWasSent(l: Link, s: State, h: Header, body: Body)
    requires NetworkOk(l) && Deliverable(l, body) && (Opening(s, h, body).1.Ok? || Opening(s, h, body).0 != s)
    ensures Sent(h, body) in l.sent && body.Sealed? && Opening(s, h, body).1 == DecodeInner(body.plaintext)
    ensures var s' := Opening(s, h, body).0;
            || (body.key == s.current.cipher.recv && RW.Refuses(s'.current.cipher.window, body.nonce))
            || (s.previous.Some? && body.key == s.previous.value.epoch.cipher.recv
                && !RW.Refuses(s.previous.value.epoch.cipher.window, body.nonce))
  {
    var q :| q in l.sent && q.body == body;
    assert PacketOk(l, q);
    HeaderInjective(h, q.header);
    assert q == Sent(h, body);
    if s.current.local == h.receiverIndex { RW.AcceptedThenRefused(s.current.cipher.window, h.counter); }
  }

  lemma GatewayWindows(c: Codec, l: Link, h: Header, body: Body)
    requires Inv(c, l) && Deliverable(l, body)
    ensures WindowsOk(l.(gateway := Opening(l.gateway, h, body).0))
  {
    if Opening(l.gateway, h, body).0 != l.gateway {
      OpenedWasSent(l, l.gateway, h, body);
      assert PacketOk(l, Sent(h, body));
    }
  }

  lemma AgentWindows(c: Codec, l: Link, h: Header, body: Body)
    requires Inv(c, l) && Deliverable(l, body)
    ensures WindowsOk(l.(agent := Opening(l.agent, h, body).0))
  {
    if Opening(l.agent, h, body).0 != l.agent {
      OpenedWasSent(l, l.agent, h, body);
      assert PacketOk(l, Sent(h, body));
    }
  }

  lemma GatewayOpens(c: Codec, l: Link, h: Header, body: Body)
    requires Inv(c, l) && Deliverable(l, body)
    ensures Inv(c, l.(gateway := Opening(l.gateway, h, body).0))
  {
    OpeningEvolves(l.gateway, h, body);
    GatewayWindows(c, l, h, body);
    EvolvesKeeps(c, l, l.(gateway := Opening(l.gateway, h, body).0));
  }

  lemma AgentOpens(c: Codec, l: Link, h: Header, body: Body)
    requires Inv(c, l) && Deliverable(l, body)
    ensures Inv(c, l.(agent := Opening(l.agent, h, body).0))
  {
    OpeningEvolves(l.agent, h, body);
    AgentWindows(c, l, h, body);
    EvolvesKeeps(c, l, l.(agent := Opening(l.agent, h, body).0));
  }

  lemma ClosedKeeps(c: Codec, l: Link, agent: bool, gateway: bool)
    requires Inv(c, l)
    ensures Inv(c, l.(agent := l.agent.(closed := agent), gateway := l.gateway.(closed := gateway)))
  {
    EvolvesKeeps(c, l, l.(agent := l.agent.(closed := agent), gateway := l.gateway.(closed := gateway)));
  }

  /** An offer reaches the gateway only through its current epoch. */
  lemma OfferOpened(c: Codec, l: Link, h: Header, body: Body)
    requires Inv(c, l) && Deliverable(l, body) && Opening(l.gateway, h, body).1.Ok? && IsRekey(c, Sent(h, body))
    ensures Offered(c, l.(gateway := Opening(l.gateway, h, body).0), Sent(h, body))
  {
    OpenedWasSent(l, l.gateway, h, body);
    assert RekeyOk(c, l, Sent(h, body));
  }

  lemma AckOpened(c: Codec, l: Link, h: Header, body: Body)
    requires Inv(c, l) && Deliverable(l, body) && Opening(l.agent, h, body).1.Ok? && IsAck(c, Sent(h, body))
    ensures Acked(c, l.(agent := Opening(l.agent, h, body).0), Sent(h, body))
  {
    OpenedWasSent(l, l.agent, h, body);
    assert AckOk(c, l, Sent(h, body));
  }

  lemma GatewayReceivesKeeps(c: Codec, l: Link, h: Header, body: Body, attempt: Attempt, index: u32, now: nat)
    requires Lossless(c) && Inv(c, l) && Deliverable(l, body)
    ensures Inv(c, GatewayReceives(c, l, h, body, attempt, index, now))
  {
    var (g, r) := Opening(l.gateway, h, body);
    GatewayOpens(c, l, h, body);
    if r.Ok? {
      OpenedWasSent(l, l.gateway, h, body);
      if IsRekey(c, Sent(h, body)) {
        OfferOpened(c, l, h, body);
        AnswerKeeps(c, l.(gateway := g), Sent(h, body), attempt, index, now);
      } else {
        ClosedKeeps(c, l.(gateway := g), l.agent.closed, true);
      }
    }
  }

  lemma AgentReceivesKeeps(c: Codec, l: Link, h: Header, body: Body, completes: bool, now: nat)
    requires Inv(c, l) && Deliverable(l, body)
    ensures Inv(c, AgentReceives(c, l, h, body, completes, now))
  {
    var (a, r) := Opening(l.agent, h, body);
    AgentOpens(c, l, h, body);
    if r.Ok? {
      OpenedWasSent(l, l.agent, h, body);
      if IsAck(c, Sent(h, body)) {
        AckOpened(c, l, h, body);
        CompleteKeeps(c, l.(agent := a), Sent(h, body), completes, now);
      } else {
        ClosedKeeps(c, l.(agent := a), true, l.gateway.closed);
      }
    }
  }

  lemma QuietKeeps(c: Codec, l: Link, ev: Event)
    requires Inv(c, l) && (ev.Timer? || ev.AgentExpires? || ev.GatewayExpires? || ev.AgentCloses? || ev.GatewayCloses?)
    ensures Inv(c, Step(c, l, ev))
  {
    EvolvesKeeps(c, l, Step(c, l, ev));
  }

  lemma StepKeeps(c: Codec, l: Link, ev: Event)
    requires Lossless(c) && Inv(c, l)
    ensures Inv(c, Step(c, l, ev))
  {
    match ev
    case Due(attempt, index) => HandleDueKeeps(c, l, attempt, index);
    case ToGateway(h, body, attempt, index, now) =>
      if Deliverable(l, body) { GatewayReceivesKeeps(c, l, h, body, attempt, index, now); }
    case ToAgent(h, body, completes, now) =>
      if Deliverable(l, body) { AgentReceivesKeeps(c, l, h, body, completes, now); }
    case AgentSends(inner, attempt) =>
      if Ordinary(c, inner) { AgentSendsKeeps(c, l, inner, attempt); }
    case GatewaySends(inner, attempt) =>
      if Ordinary(c, inner) { GatewaySendsKeeps(c, l, inner, attempt); }
    case _ => QuietKeeps(c, l, ev);
  }

  /** In every run of the protocol, over any network, the invariant holds. */
  lemma {:induction false} RunKeeps(c: Codec, n: nat, agentIndex: u32, gatewayIndex: u32, now: nat, evs: seq<Event>)
    requires Lossless(c)
    ensures Inv(c, Run(c, NewLink(n, agentIndex, gatewayIndex, now), evs))
  {
    var start := NewLink(n, agentIndex, gatewayIndex, now);
    if evs == [] {
      assert Level(start);
    } else {
      RunKeeps(c, n, agentIndex, gatewayIndex, now, evs[..|evs| - 1]);
      StepKeeps(c, Run(c, start, evs[..|evs| - 1]), evs[|evs| - 1]);
    }
  }

  // ---------- what the invariant is for ----------

  /** The gateway is level with the agent or one epoch ahead; level, they hold the same keys with
      crossed indexes; ahead, the gateway's keys are the ones the agent's pending offer leads to, and
      the previous epoch it may still hold is the agent's current one. */
  lemma EpochsTrack(c: Codec, n: nat, agentIndex: u32, gatewayIndex: u32, now: nat, evs: seq<Event>)
    requires Lossless(c)
    ensures var l := Run(c, NewLink(n, agentIndex, gatewayIndex, now), evs);
            && l.agent.epoch <= l.gateway.epoch <= l.agent.epoch + 1
            && (l.gateway.epoch == l.agent.epoch ==> Paired(l.agent.current, l.gateway.current))
            && (l.gateway.epoch > l.agent.epoch ==>
                  && l.pending.Some? && l.agent.rekeyPending && l.gateway.current.remote == l.pending.value.index
                  && (l.gateway.previous.Some? ==> Paired(l.agent.current, l.gateway.previous.value.epoch))
                  && exists seed ::
                       l.gateway.current.keys == Rekey(l.agent.current.keys, Agreed(l.pending.value.eph, seed)))
  {
    RunKeeps(c, n, agentIndex, gatewayIndex, now, evs);
  }

  /** However packets are lost, repeated or delayed, one epoch sees at most one offer and one answer. */
  lemma AtMostOneRekey(c: Codec, n: nat, agentIndex: u32, gatewayIndex: u32, now: nat, evs: seq<Event>,
                       p: Sent, q: Sent)
    requires Lossless(c)
    requires var l := Run(c, NewLink(n, agentIndex, gatewayIndex, now), evs); p in l.sent && q in l.sent
    requires (IsRekey(c, p) && IsRekey(c, q)) || (IsAck(c, p) && IsAck(c, q))
    requires p.body.key.keys == q.body.key.keys
    ensures p == q
  {
    RunKeeps(c, n, agentIndex, gatewayIndex, now, evs);
    var l := Run(c, NewLink(n, agentIndex, gatewayIndex, now), evs);
    if IsRekey(c, p) { assert RekeyOk(c, l, p) && RekeyOk(c, l, q); } else { assert AckOk(c, l, p) && AckOk(c, l, q); }
  }

  /** `s` holds a slot whose key sealed the body and whose window does not refuse its counter. */
  ghost predicate Awaits(s: State, body: Body) {
    body.Sealed? && exists e :: Holds(s, e) && body.key == e.cipher.recv && !RW.Refuses(e.cipher.window, body.nonce)
  }

  lemma AwaitedOpens(l: Link, s: State, p: Sent, e: Epoch)
    requires EndsOk(l) && PacketOk(l, p) && (s == l.agent || s == l.gateway) && !s.closed
    requires Holds(s, e) && p.body.key == e.cipher.recv && !RW.Refuses(e.cipher.window, p.body.nonce)
    ensures Opening(s, p.header, p.body).1 == DecodeInner(p.body.plaintext)
  {
  }

  lemma OpenedWasAwaited(s: State, h: Header, body: Body)
    requires Opening(s, h, body).1.Ok?
    ensures Awaits(s, body) && !s.closed
  {
    if s.current.local == h.receiverIndex {
      assert Holds(s, s.current);
    } else {
      assert Holds(s, s.previous.value.epoch);
    }
  }

  /** Whenever it arrives and whatever else the network did, a body is opened by an end exactly when
      it arrives under the header it was sent with, and the end is open and still holds its epoch with a
      window that does not refuse its counter; it then opens to what was sealed. */
  lemma OpensExactly(c: Codec, l: Link, s: State, h: Header, body: Body)
    requires Inv(c, l) && (s == l.agent || s == l.gateway) && Deliverable(l, body)
    ensures Opening(s, h, body).1.Ok? <==> Sent(h, body) in l.sent && Awaits(s, body) && !s.closed
    ensures Opening(s, h, body).1.Ok? ==> body.Sealed? && Opening(s, h, body).1 == DecodeInner(body.plaintext)
  {
    if Opening(s, h, body).1.Ok? {
      OpenedWasSent(l, s, h, body);
      OpenedWasAwaited(s, h, body);
    }
    if Sent(h, body) in l.sent && Awaits(s, body) && !s.closed {
      assert PacketOk(l, Sent(h, body));
      var e :| Holds(s, e) && body.key == e.cipher.recv && !RW.Refuses(e.cipher.window, body.nonce);
      AwaitedOpens(l, s, Sent(h, body), e);
    }
  }

  /** What the agent seals now is readable at an open gateway exactly when the gateway is level with
      it or still holds the previous epoch: rekeying loses agent traffic only after the overlap. */
  lemma AgentTrafficReadable(c: Codec, l: Link, inner: Inner)
    requires Inv(c, l) && Sealing(l.agent, inner).Ok? && !l.gateway.closed
    ensures Opening(l.gateway, HeaderFor(l.agent), Sealing(l.agent, inner).value.1.body).1 == Ok(inner) <==>
            l.gateway.epoch == l.agent.epoch || l.gateway.previous.Some?
  {
    if Level(l) {
      SealedOpens(l.agent, inner, l.gateway, l.gateway.current);
    } else if l.gateway.previous.Some? {
      SealedOpens(l.agent, inner, l.gateway, l.gateway.previous.value.epoch);
    }
  }

  /** In the other direction: exactly when the agent has completed the rekey the gateway answered. */
  lemma GatewayTrafficReadable(c: Codec, l: Link, inner: Inner)
    requires Inv(c, l) && Sealing(l.gateway, inner).Ok? && !l.agent.closed
    ensures Opening(l.agent, HeaderFor(l.gateway), Sealing(l.gateway, inner).value.1.body).1 == Ok(inner) <==>
            l.gateway.epoch == l.agent.epoch
  {
    if Level(l) { SealedOpens(l.gateway, inner, l.agent, l.agent.current); }
  }

  /** Stated for runs: whatever the network did, traffic sealed at the end of the run is readable
      exactly as above. */
  lemma TrafficReadable(c: Codec, n: nat, agentIndex: u32, gatewayIndex: u32, now: nat, evs: seq<Event>, inner: Inner)
    requires Lossless(c)
    ensures var l := Run(c, NewLink(n, agentIndex, gatewayIndex, now), evs);
            && (Sealing(l.agent, inner).Ok? && !l.gateway.closed ==>
                  (Opening(l.gateway, HeaderFor(l.agent), Sealing(l.agent, inner).value.1.body).1 == Ok(inner) <==>
                   l.gateway.epoch == l.agent.epoch || l.gateway.previous.Some?))
            && (Sealing(l.gateway, inner).Ok? && !l.agent.closed ==>
                  (Opening(l.agent, HeaderFor(l.gateway), Sealing(l.gateway, inner).value.1.body).1 == Ok(inner) <==>
                   l.gateway.epoch == l.agent.epoch))
  {
    RunKeeps(c, n, agentIndex, gatewayIndex, now, evs);
    var l := Run(c, NewLink(n, agentIndex, gatewayIndex, now), evs);
    if Sealing(l.agent, inner).Ok? && !l.gateway.closed { AgentTrafficReadable(c, l, inner); }
    if Sealing(l.gateway, inner).Ok? && !l.agent.closed { GatewayTrafficReadable(c, l, inner); }
  }

  // ---------- an undisturbed exchange completes ----------

  function SealedNow(s: State, inner: Inner): Sent
    requires Sealing(s, inner).Ok?
  {
    Sent(HeaderFor(s), Sealing(s, inner).value.1.body)
  }

  function OfferInner(c: Codec, l: Link, index: u32): Inner {
    Control(c.enc(RekeyFrame(l.agent.epoch + 1, l.ephs, index)))
  }

  function AckInner(c: Codec, l: Link, f: Frame, index: u32): Inner
    requires f.RekeyFrame?
  {
    Control(c.enc(RekeyAck(f.newEpoch, Encapsulated(f.eph, l.seeds), index)))
  }

  /** Both ends can seal, and no rekey is under way. */
  predicate Idle(l: Link) {
    && !l.agent.rekeyPending && !l.agent.closed && !l.gateway.closed
    && l.agent.current.cipher.counter < RW.LIMIT && l.gateway.current.cipher.counter < RW.LIMIT
  }

  /** A counter past everything accepted is not refused. */
  lemma NewCounterAwaited(s: State, body: Body)
    requires body.Sealed? && body.key == s.current.cipher.recv && Behind(s.current.cipher.window, body.nonce)
    ensures Awaits(s, body)
  {
    assert Holds(s, s.current);
  }

  lemma OfferGoesOut(c: Codec, l: Link, index: u32)
    requires Lossless(c) && Inv(c, l) && Idle(l) && Unbound(l.agent, index)
    ensures var l1 := Step(c, Step(c, l, Timer), Due(OnTheWire, index));
            var p := SealedNow(l.agent, OfferInner(c, l, index));
            && p in l1.sent && FrameIn(c, p) == Some(RekeyFrame(l.agent.epoch + 1, l.ephs, index))
            && l1.gateway == l.gateway && l1.agent.epoch == l.agent.epoch && !l1.agent.closed
            && Slot(l1) == Some(Offer(l.ephs, index)) && Awaits(l1.gateway, p.body)
  {
    var inner := OfferInner(c, l, index);
    var p := SealedNow(l.agent, inner);
    InnerRoundTrip(inner);
    assert Level(l);
    NewCounterAwaited(l.gateway, p.body);
  }

  lemma AnswerGoesOut(c: Codec, l: Link, p: Sent, index: u32, now: nat)
    requires Lossless(c) && Inv(c, l) && p in l.sent && IsRekey(c, p) && Awaits(l.gateway, p.body)
    requires !l.gateway.closed && l.gateway.current.cipher.counter < RW.LIMIT && Unbound(l.gateway, index)
    ensures var l1 := Step(c, l, ToGateway(p.header, p.body, OnTheWire, index, now));
            var q := SealedNow(l.gateway, AckInner(c, l, FrameIn(c, p).value, index));
            && l1.gateway.epoch == l.gateway.epoch + 1 && l1.agent == l.agent && Slot(l1) == Slot(l)
            && q in l1.sent && IsAck(c, q) && q.body.key == l.gateway.current.cipher.send
            && q.body.nonce == l.gateway.current.cipher.counter
  {
    OpensExactly(c, l, l.gateway, p.header, p.body);
    var g := Opening(l.gateway, p.header, p.body).0;
    var inner := AckInner(c, l, FrameIn(c, p).value, index);
    OpeningKeepsSending(l.gateway, p.header, p.body);
    InnerRoundTrip(inner);
    assert SealedNow(g, inner) == SealedNow(l.gateway, inner);
    assert Indexes(g) == Indexes(l.gateway);
  }

  lemma OpeningKeepsSending(s: State, h: Header, body: Body)
    ensures var s' := Opening(s, h, body).0;
            && s'.epoch == s.epoch && s'.closed == s.closed && Indexes(s') == Indexes(s)
                && HeaderFor(s') == HeaderFor(s)
            && s'.current.cipher.send == s.current.cipher.send && s'.current.cipher.counter == s.current.cipher.counter
  {
  }

  lemma AnswerIsTaken(c: Codec, l: Link, q: Sent, now: nat)
    requires Lossless(c) && Inv(c, l) && q in l.sent && IsAck(c, q) && Awaits(l.agent, q.body)
    requires !l.agent.closed && Slot(l).Some?
    ensures var l1 := Step(c, l, ToAgent(q.header, q.body, true, now));
            l1.agent.epoch == l.agent.epoch + 1 && l1.gateway == l.gateway
  {
    OpensExactly(c, l, l.agent, q.header, q.body);
    OpeningKeepsSending(l.agent, q.header, q.body);
  }

  lemma AnswerLevels(c: Codec, l: Link, q: Sent, now: nat)
    requires Lossless(c) && Inv(c, l) && q in l.sent && IsAck(c, q) && Awaits(l.agent, q.body)
    requires !l.agent.closed && Slot(l).Some? && l.gateway.epoch == l.agent.epoch + 1
    ensures var l1 := Step(c, l, ToAgent(q.header, q.body, true, now));
            l1.agent.epoch == l1.gateway.epoch == l.gateway.epoch && Paired(l1.agent.current, l1.gateway.current)
  {
    AnswerIsTaken(c, l, q, now);
    StepKeeps(c, l, ToAgent(q.header, q.body, true, now));
  }

  /** The steps of an exchange nothing disturbs: the timer, the offer delivered, the answer delivered. */
  function Exchange(c: Codec, l: Link, i: u32, j: u32, t1: nat, t2: nat): Link
    requires Idle(l)
  {
    var l1 := Step(c, Step(c, l, Timer), Due(OnTheWire, i));
    var p := SealedNow(l.agent, OfferInner(c, l, i));
    var l2 := Step(c, l1, ToGateway(p.header, p.body, OnTheWire, j, t1));
    var q := SealedNow(l.gateway, AckInner(c, l1, RekeyFrame(l.agent.epoch + 1, l.ephs, i), j));
    Step(c, l2, ToAgent(q.header, q.body, true, t2))
  }

  /** The state in which the gateway has answered the offer, and the answer on its way. */
  lemma OfferAnswered(c: Codec, l: Link, i: u32, j: u32, t1: nat, t2: nat) returns (l2: Link, q: Sent)
    requires Lossless(c) && Inv(c, l) && Idle(l) && Unbound(l.agent, i) && Unbound(l.gateway, j)
    ensures Exchange(c, l, i, j, t1, t2) == Step(c, l2, ToAgent(q.header, q.body, true, t2))
    ensures Inv(c, l2) && l2.gateway.epoch == l2.agent.epoch + 1 == l.agent.epoch + 1
    ensures !l2.agent.closed && Slot(l2).Some? && q in l2.sent && IsAck(c, q) && Awaits(l2.agent, q.body)
  {
    var l0 := Step(c, l, Timer);
    var l1 := Step(c, l0, Due(OnTheWire, i));
    StepKeeps(c, l, Timer);
    StepKeeps(c, l0, Due(OnTheWire, i));
    OfferGoesOut(c, l, i);
    var p := SealedNow(l.agent, OfferInner(c, l, i));
    AnswerGoesOut(c, l1, p, j, t1);
    var ev := ToGateway(p.header, p.body, OnTheWire, j, t1);
    l2 := Step(c, l1, ev);
    StepKeeps(c, l1, ev);
    q := SealedNow(l.gateway, AckInner(c, l1, FrameIn(c, p).value, j));
    NewCounterAwaited(l2.agent, q.body);
  }

  /** From any reachable idle state such an exchange leaves both ends one epoch further, with the same
      keys and crossed indexes. */
  lemma RekeyCompletes(c: Codec, l: Link, i: u32, j: u32, t1: nat, t2: nat)
    requires Lossless(c) && Inv(c, l) && Idle(l) && Unbound(l.agent, i) && Unbound(l.gateway, j)
    ensures var l' := Exchange(c, l, i, j, t1, t2);
            && l'.agent.epoch == l.agent.epoch + 1 == l'.gateway.epoch
            && Paired(l'.agent.current, l'.gateway.current)
  {
    var l2, q := OfferAnswered(c, l, i, j, t1, t2);
    AnswerLevels(c, l2, q, t2);
  }
}
