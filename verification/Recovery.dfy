/** Ends one epoch apart: exactly when they can become level again. */
module Recovery {
  import opened Wrappers
  import opened Bytes
  import opened Datagram
  import opened Session
  import opened RekeyProtocol
  import RW = ReplayWindow

  predicate Apart(l: Link) { l.gateway.epoch == l.agent.epoch + 1 }

  /** The agent can still take the answer: its offer is in the slot and it is open. */
  predicate Listening(l: Link) { Slot(l).Some? && !l.agent.closed }

  // ---------- apart and not listening, for good ----------

  lemma ApartOffers(c: Codec, l: Link)
    requires Inv(c, l) && Apart(l)
    ensures l.pending.Some? && l.agent.rekeyPending && !l.due
  {
  }

  /** While apart the gateway reads no offer, so a delivery changes nothing but its own session. */
  lemma ApartGateway(c: Codec, l: Link, h: Header, body: Body, attempt: Attempt, index: u32, now: nat)
    requires Inv(c, l) && Apart(l) && Deliverable(l, body)
    ensures var l' := GatewayReceives(c, l, h, body, attempt, index, now);
            l' == l.(gateway := l'.gateway) && l'.gateway.epoch == l.gateway.epoch
  {
    var (g, r) := Opening(l.gateway, h, body);
    OpeningKeepsSending(l.gateway, h, body);
    if r.Ok? {
      OpenedWasSent(l, l.gateway, h, body);
      if IsRekey(c, Sent(h, body)) {
        GatewayOpens(c, l, h, body);
        OfferOpened(c, l, h, body);
        OfferIsPending(c, l.(gateway := g), Sent(h, body));
      }
    }
  }

  lemma DeafAgent(c: Codec, l: Link, h: Header, body: Body, completes: bool, now: nat)
    requires !Listening(l)
    ensures var l' := AgentReceives(c, l, h, body, completes, now);
            l'.agent.epoch == l.agent.epoch && l'.gateway == l.gateway && !Listening(l')
  {
    OpeningKeepsSending(l.agent, h, body);
  }

  lemma StuckStep(c: Codec, l: Link, ev: Event)
    requires Inv(c, l) && Apart(l) && !Listening(l)
    ensures var l' := Step(c, l, ev);
            l'.agent.epoch == l.agent.epoch && l'.gateway.epoch == l.gateway.epoch && !Listening(l')
  {
    ApartOffers(c, l);
    match ev
    case ToGateway(h, body, attempt, index, now) =>
      if Deliverable(l, body) { ApartGateway(c, l, h, body, attempt, index, now); }
    case ToAgent(h, body, completes, now) => DeafAgent(c, l, h, body, completes, now);
    case _ =>
  }

  /** Once apart with the slot empty or the agent closed, both epochs stay as they are in every
      continuation, and nothing the gateway seals is ever read again. */
  lemma {:induction false} StuckForever(c: Codec, l: Link, evs: seq<Event>)
    requires Lossless(c) && Inv(c, l) && Apart(l) && !Listening(l)
    ensures var r := Run(c, l, evs);
            && r.agent.epoch == l.agent.epoch && r.gateway.epoch == l.gateway.epoch && Inv(c, r) && !Listening(r)
            && forall inner :: Sealing(r.gateway, inner).Ok? && !r.agent.closed ==>
                 Opening(r.agent, HeaderFor(r.gateway), Sealing(r.gateway, inner).value.1.body).1 != Ok(inner)
  {
    var r := Run(c, l, evs);
    if evs != [] {
      var before, ev := evs[..|evs| - 1], evs[|evs| - 1];
      StuckForever(c, l, before);
      StuckStep(c, Run(c, l, before), ev);
      StepKeeps(c, Run(c, l, before), ev);
    }
    forall inner | Sealing(r.gateway, inner).Ok? && !r.agent.closed
      ensures Opening(r.agent, HeaderFor(r.gateway), Sealing(r.gateway, inner).value.1.body).1 != Ok(inner)
    {
      GatewayTrafficReadable(c, r, inner);
    }
  }

  // ---------- the answer waits for the agent ----------

  /** `q` is the answer the agent needs, the last packet of the gateway's old epoch. */
  ghost predicate Waits(c: Codec, l: Link, q: Sent) {
    && q in l.sent && IsAck(c, q) && q.body.key == l.agent.current.cipher.recv
    && (forall p :: p in l.sent && p.body.Sealed? && p.body.key == q.body.key && p != q ==> p.body.nonce < q.body.nonce)
    && (Slot(l).Some? ==> Behind(l.agent.current.cipher.window, q.body.nonce))
  }

  ghost predicate Answerable(c: Codec, l: Link) {
    Apart(l) ==> exists q :: Waits(c, l, q)
  }

  /** Packets under other keys, and changes the agent's window does not see, leave it waiting. */
  lemma WaitsOn(c: Codec, l: Link, l': Link, q: Sent)
    requires Waits(c, l, q) && l.sent <= l'.sent && l'.agent.current.cipher.recv == l.agent.current.cipher.recv
    requires forall p :: p in l'.sent && p !in l.sent ==> p.body.Sealed? && p.body.key != q.body.key
    requires Slot(l').Some? ==> Slot(l).Some? && Behind(l'.agent.current.cipher.window, q.body.nonce)
    ensures Waits(c, l', q)
  {
  }

  lemma SendWaits(c: Codec, l: Link, inner: Inner, attempt: Attempt, fromAgent: bool, q: Sent)
    requires Inv(c, l) && Apart(l) && Waits(c, l, q)
    ensures var e := Emit(if fromAgent then l.agent else l.gateway, inner, attempt, l.sent);
            var l' := l.(sent := e.sent);
            Waits(c, if fromAgent then l'.(agent := e.state) else l'.(gateway := e.state), q)
  {
    var s := if fromAgent then l.agent else l.gateway;
    var e := Emit(s, inner, attempt, l.sent);
    var p := EmitResult(c, s, inner, attempt, l.sent);
    var l' := if fromAgent then l.(agent := e.state, sent := e.sent) else l.(gateway := e.state, sent := e.sent);
    WaitsOn(c, l, l', q);
  }

  /** Any other packet the agent opens is older than the answer. */
  lemma OpeningWaits(c: Codec, l: Link, h: Header, body: Body, q: Sent)
    requires Inv(c, l) && Apart(l) && Waits(c, l, q) && Deliverable(l, body) && Sent(h, body) != q
    ensures Waits(c, l.(agent := Opening(l.agent, h, body).0), q)
  {
    var a := Opening(l.agent, h, body).0;
    if a != l.agent { OpenedWasSent(l, l.agent, h, body); }
    WaitsOn(c, l, l.(agent := a), q);
  }

  lemma CompleteWaits(c: Codec, l: Link, f: Frame, completes: bool, now: nat, q: Sent)
    requires Apart(l) && Waits(c, l, q) && f.RekeyAck?
    ensures var l' := CompleteRekey(l, f, completes, now); Apart(l') ==> Waits(c, l', q)
  {
  }

  /** The answer itself empties the slot or makes the ends level. */
  lemma TakenWaits(c: Codec, l: Link, completes: bool, now: nat, q: Sent)
    requires Inv(c, l) && Apart(l) && Waits(c, l, q)
    ensures var l' := AgentReceives(c, l, q.header, q.body, completes, now); Apart(l') ==> Waits(c, l', q)
  {
    var (a, r) := Opening(l.agent, q.header, q.body);
    OpeningKeepsSending(l.agent, q.header, q.body);
    if a != l.agent { OpenedWasSent(l, l.agent, q.header, q.body); }
  }

  lemma ReceiveWaits(c: Codec, l: Link, h: Header, body: Body, completes: bool, now: nat, q: Sent)
    requires Inv(c, l) && Apart(l) && Waits(c, l, q) && Deliverable(l, body)
    ensures var l' := AgentReceives(c, l, h, body, completes, now); Apart(l') ==> Waits(c, l', q)
  {
    if Sent(h, body) == q {
      TakenWaits(c, l, completes, now, q);
    } else {
      var (a, r) := Opening(l.agent, h, body);
      var l1 := l.(agent := a);
      OpeningKeepsSending(l.agent, h, body);
      OpeningWaits(c, l, h, body, q);
      if r.Ok? && FrameOf(c, r.value).Some? && FrameOf(c, r.value).value.RekeyAck? {
        CompleteWaits(c, l1, FrameOf(c, r.value).value, completes, now, q);
      } else {
        WaitsOn(c, l1, l.(agent := a.(closed := true)), q);
      }
    }
  }

  /** An answer that goes out is the last packet of its epoch, and the agent has not read past it. */
  lemma AnswerWaits(c: Codec, l: Link, f: Frame, attempt: Attempt, index: u32, now: nat)
    requires Lossless(c) && Inv(c, l) && !Apart(l) && f.RekeyFrame?
    ensures Answerable(c, AnswerRekey(c, l, f, attempt, index, now))
  {
    var l' := AnswerRekey(c, l, f, attempt, index, now);
    if Apart(l') {
      var ack := RekeyAck(f.newEpoch, Encapsulated(f.eph, l.seeds), index);
      var q := EmitResult(c, l.gateway, Control(c.enc(ack)), attempt, l.sent);
      assert c.dec(c.enc(ack)) == Some(ack);
      forall p | p in l'.sent && p.body.Sealed? && p.body.key == q.body.key && p != q
        ensures p.body.nonce < q.body.nonce
      {
        assert PacketOk(l, p);
      }
      assert Waits(c, l', q);
    }
  }

  lemma FirstAnswer(c: Codec, l: Link, h: Header, body: Body, attempt: Attempt, index: u32, now: nat)
    requires Lossless(c) && Inv(c, l) && !Apart(l) && Deliverable(l, body)
    ensures Answerable(c, GatewayReceives(c, l, h, body, attempt, index, now))
  {
    var (g, r) := Opening(l.gateway, h, body);
    GatewayOpens(c, l, h, body);
    OpeningKeepsSending(l.gateway, h, body);
    if r.Ok? && FrameOf(c, r.value).Some? && FrameOf(c, r.value).value.RekeyFrame? {
      AnswerWaits(c, l.(gateway := g), FrameOf(c, r.value).value, attempt, index, now);
    }
  }

  lemma ApartStep(c: Codec, l: Link, ev: Event, q: Sent)
    requires Inv(c, l) && Apart(l) && Waits(c, l, q)
    ensures Apart(Step(c, l, ev)) ==> Waits(c, Step(c, l, ev), q)
  {
    ApartOffers(c, l);
    match ev
    case ToGateway(h, body, attempt, index, now) =>
      if Deliverable(l, body) { ApartGateway(c, l, h, body, attempt, index, now); }
      WaitsOn(c, l, Step(c, l, ev), q);
    case ToAgent(h, body, completes, now) =>
      if Deliverable(l, body) { ReceiveWaits(c, l, h, body, completes, now, q); }
    case AgentSends(inner, attempt) => SendWaits(c, l, inner, attempt, true, q);
    case GatewaySends(inner, attempt) => SendWaits(c, l, inner, attempt, false, q);
    case _ => WaitsOn(c, l, Step(c, l, ev), q);
  }

  lemma LevelAgent(c: Codec, l: Link, h: Header, body: Body, completes: bool, now: nat)
    ensures var l' := AgentReceives(c, l, h, body, completes, now);
            l'.agent.epoch >= l.agent.epoch && l'.gateway == l.gateway
  {
    OpeningKeepsSending(l.agent, h, body);
  }

  lemma LevelStep(c: Codec, l: Link, ev: Event)
    requires Lossless(c) && Inv(c, l) && !Apart(l)
    ensures Answerable(c, Step(c, l, ev))
  {
    match ev
    case ToGateway(h, body, attempt, index, now) =>
      if Deliverable(l, body) { FirstAnswer(c, l, h, body, attempt, index, now); }
    case ToAgent(h, body, completes, now) => LevelAgent(c, l, h, body, completes, now);
    case _ =>
  }

  lemma {:induction false} RunAnswerable(c: Codec, n: nat, agentIndex: u32, gatewayIndex: u32, now: nat,
                                         evs: seq<Event>)
    requires Lossless(c)
    ensures var l := Run(c, NewLink(n, agentIndex, gatewayIndex, now), evs); Inv(c, l) && Answerable(c, l)
  {
    var start := NewLink(n, agentIndex, gatewayIndex, now);
    RunKeeps(c, n, agentIndex, gatewayIndex, now, evs);
    if evs != [] {
      var before, ev := evs[..|evs| - 1], evs[|evs| - 1];
      RunAnswerable(c, n, agentIndex, gatewayIndex, now, before);
      var l := Run(c, start, before);
      if Apart(l) {
        var q :| Waits(c, l, q);
        ApartStep(c, l, ev, q);
      } else {
        LevelStep(c, l, ev);
      }
    }
  }

  // ---------- exactly when they can rejoin ----------

  ghost predicate CanRejoin(c: Codec, l: Link) {
    exists evs :: !Apart(Run(c, l, evs))
  }

  lemma AnswerRejoins(c: Codec, l: Link, q: Sent)
    requires Lossless(c) && Inv(c, l) && Apart(l) && Listening(l) && Waits(c, l, q)
    ensures CanRejoin(c, l)
  {
    var ev := ToAgent(q.header, q.body, true, 0);
    NewCounterAwaited(l.agent, q.body);
    AnswerLevels(c, l, q, 0);
    var none: seq<Event> := [];
    assert [ev][..0] == none;
    assert Run(c, l, [ev]) == Step(c, Run(c, l, none), ev);
    assert !Apart(Run(c, l, [ev]));
  }

  /** In every run, ends that have come one epoch apart can become level again exactly when the agent's
      offer is still in its slot and the agent is open. */
  lemma RejoinExact(c: Codec, n: nat, agentIndex: u32, gatewayIndex: u32, now: nat, evs: seq<Event>)
    requires Lossless(c) && Apart(Run(c, NewLink(n, agentIndex, gatewayIndex, now), evs))
    ensures var l := Run(c, NewLink(n, agentIndex, gatewayIndex, now), evs); CanRejoin(c, l) <==> Listening(l)
  {
    var l := Run(c, NewLink(n, agentIndex, gatewayIndex, now), evs);
    RunAnswerable(c, n, agentIndex, gatewayIndex, now, evs);
    if Listening(l) {
      var q :| Waits(c, l, q);
      AnswerRejoins(c, l, q);
    } else {
      forall more ensures Apart(Run(c, l, more)) { StuckForever(c, l, more); }
    }
  }
}
