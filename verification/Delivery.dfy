/** What each end of the tunnel has accepted over a run, and delivery stated over that history. */
module Delivery {
  import opened Wrappers
  import opened Bytes
  import opened Datagram
  import opened Session
  import opened RekeyProtocol
  import RW = ReplayWindow

  /** Counters accepted, each with the key it was accepted under. */
  type Accepted = set<(Key, nat)>

  function Under(got: Accepted, key: Key): set<nat> {
    set x | x in got && x.0 == key :: x.1
  }

  /** The protocol state together with what each end has accepted so far. */
  datatype Tracked = Tracked(link: Link, byAgent: Accepted, byGateway: Accepted)

  function NewlyAccepted(s: State, h: Header, body: Body): Accepted {
    if body.Sealed? && Opening(s, h, body).0 != s then {(body.key, body.nonce)} else {}
  }

  function AgentAccepts(l: Link, ev: Event): Accepted {
    if ev.ToAgent? && Deliverable(l, ev.body) then NewlyAccepted(l.agent, ev.header, ev.body) else {}
  }

  function GatewayAccepts(l: Link, ev: Event): Accepted {
    if ev.ToGateway? && Deliverable(l, ev.body) then NewlyAccepted(l.gateway, ev.header, ev.body) else {}
  }

  function Track(c: Codec, start: Link, evs: seq<Event>): Tracked {
    if evs == [] then Tracked(start, {}, {})
    else
      var t, ev := Track(c, start, evs[..|evs| - 1]), evs[|evs| - 1];
      Tracked(Step(c, t.link, ev), t.byAgent + AgentAccepts(t.link, ev), t.byGateway + GatewayAccepts(t.link, ev))
  }

  // ---------- windows stand for the history ----------

  /** Every slot's window represents exactly what was accepted under its key. */
  ghost predicate Remembers(s: State, got: Accepted) {
    && (forall x :: x in got ==> x.0.keys.epoch <= s.epoch)
    && RW.Represents(s.current.cipher.window, Under(got, s.current.cipher.recv))
    && (s.previous.Some? ==>
          var e := s.previous.value.epoch;
          RW.Represents(e.cipher.window, Under(got, e.cipher.recv)))
  }

  predicate SameReceiver(e: Epoch, e': Epoch) {
    e'.cipher.recv == e.cipher.recv && e'.cipher.window == e.cipher.window
  }

  /** Nothing a receiver looks at has changed, but that the previous epoch may be gone. */
  predicate Quiet(s: State, s': State) {
    && s'.epoch == s.epoch && SameReceiver(s.current, s'.current)
    && (s'.previous.Some? ==> s.previous.Some? && SameReceiver(s.previous.value.epoch, s'.previous.value.epoch))
  }

  lemma QuietRemembers(s: State, s': State, got: Accepted)
    requires Remembers(s, got) && Quiet(s, s')
    ensures Remembers(s', got)
  {
  }

  lemma UnderGrows(got: Accepted, key: Key, n: nat, other: Key)
    ensures Under(got + {(key, n)}, key) == Under(got, key) + {n}
    ensures other != key ==> Under(got + {(key, n)}, other) == Under(got, other)
  {
    assert (key, n) in got + {(key, n)};
  }

  lemma OpeningRemembers(s: State, role: Role, h: Header, body: Body, got: Accepted)
    requires SideOk(s, role) && Remembers(s, got)
    ensures Remembers(Opening(s, h, body).0, got + NewlyAccepted(s, h, body))
  {
    var s' := Opening(s, h, body).0;
    if s' == s {
      assert got + {} == got;
    } else if s.current.local == h.receiverIndex {
      RW.UpdateRefines(s.current.cipher.window, Under(got, body.key), body.nonce);
      UnderGrows(got, body.key, body.nonce, body.key);
      if s.previous.Some? { UnderGrows(got, body.key, body.nonce, s.previous.value.epoch.cipher.recv); }
    } else {
      RW.UpdateRefines(s.previous.value.epoch.cipher.window, Under(got, body.key), body.nonce);
      UnderGrows(got, body.key, body.nonce, s.current.cipher.recv);
    }
  }

  lemma RotatedRemembers(s: State, keys: SessionKeys, local: u32, remote: u32, now: nat, got: Accepted)
    requires Remembers(s, got) && keys.epoch == s.epoch + 1
    ensures Remembers(Rotated(s, keys, local, remote, now), got)
  {
    var s' := Rotated(s, keys, local, remote, now);
    assert Under(got, s'.current.cipher.recv) == {};
  }

  lemma EmitQuiet(s: State, inner: Inner, attempt: Attempt, sent: set<Sent>)
    ensures Quiet(s, Emit(s, inner, attempt, sent).state)
  {
  }

  // ---------- each step ----------

  lemma AnswerRemembers(c: Codec, l: Link, f: Frame, attempt: Attempt, index: u32, now: nat, got: Accepted)
    requires f.RekeyFrame? && SideOk(l.gateway, Responder) && Remembers(l.gateway, got)
    ensures Remembers(AnswerRekey(c, l, f, attempt, index, now).gateway, got)
  {
    if Unbound(l.gateway, index) {
      var inner := Control(c.enc(RekeyAck(f.newEpoch, Encapsulated(f.eph, l.seeds), index)));
      var e := Emit(l.gateway, inner, attempt, l.sent);
      EmitQuiet(l.gateway, inner, attempt, l.sent);
      QuietRemembers(l.gateway, e.state, got);
      RotatedRemembers(e.state, Rekey(l.gateway.current.keys, Agreed(f.eph, l.seeds)), index, f.newIndex, now, got);
    }
  }

  lemma CompleteRemembers(l: Link, f: Frame, completes: bool, now: nat, got: Accepted)
    requires f.RekeyAck? && SideOk(l.agent, Initiator) && Remembers(l.agent, got)
    ensures Remembers(CompleteRekey(l, f, completes, now).agent, got)
  {
    if Slot(l).Some? {
      var offer := Slot(l).value;
      var next := Rekey(l.agent.current.keys, Decapsulate(offer.eph, f.ct));
      RotatedRemembers(l.agent, next, offer.index, f.newIndex, now, got);
    }
  }

  lemma OpeningSide(s: State, role: Role, h: Header, body: Body)
    requires SideOk(s, role)
    ensures SideOk(Opening(s, h, body).0, role)
  {
  }

  lemma GatewayReceiveRemembers(c: Codec, l: Link, ev: Event, got: Accepted)
    requires SideOk(l.gateway, Responder) && Remembers(l.gateway, got) && ev.ToGateway?
    ensures Remembers(GatewayReceives(c, l, ev.header, ev.body, ev.attempt, ev.index, ev.now).gateway,
                      got + NewlyAccepted(l.gateway, ev.header, ev.body))
  {
    var (g, r) := Opening(l.gateway, ev.header, ev.body);
    var got' := got + NewlyAccepted(l.gateway, ev.header, ev.body);
    OpeningRemembers(l.gateway, Responder, ev.header, ev.body, got);
    OpeningSide(l.gateway, Responder, ev.header, ev.body);
    QuietRemembers(g, g.(closed := true), got');
    if r.Ok? && FrameOf(c, r.value).Some? && FrameOf(c, r.value).value.RekeyFrame? {
      AnswerRemembers(c, l.(gateway := g), FrameOf(c, r.value).value, ev.attempt, ev.index, ev.now, got');
    }
  }

  lemma AgentReceiveRemembers(c: Codec, l: Link, ev: Event, got: Accepted)
    requires SideOk(l.agent, Initiator) && Remembers(l.agent, got) && ev.ToAgent?
    ensures Remembers(AgentReceives(c, l, ev.header, ev.body, ev.completes, ev.now).agent,
                      got + NewlyAccepted(l.agent, ev.header, ev.body))
  {
    var (a, r) := Opening(l.agent, ev.header, ev.body);
    var got' := got + NewlyAccepted(l.agent, ev.header, ev.body);
    OpeningRemembers(l.agent, Initiator, ev.header, ev.body, got);
    OpeningSide(l.agent, Initiator, ev.header, ev.body);
    QuietRemembers(a, a.(closed := true), got');
    if r.Ok? && FrameOf(c, r.value).Some? && FrameOf(c, r.value).value.RekeyAck? {
      CompleteRemembers(l.(agent := a), FrameOf(c, r.value).value, ev.completes, ev.now, got');
    }
  }

  lemma AgentStep(c: Codec, l: Link, ev: Event, got: Accepted)
    requires SideOk(l.agent, Initiator) && Remembers(l.agent, got)
    ensures Remembers(Step(c, l, ev).agent, got + AgentAccepts(l, ev))
  {
    if ev.ToAgent? && Deliverable(l, ev.body) {
      AgentReceiveRemembers(c, l, ev, got);
    } else {
      assert got + {} == got;
      QuietRemembers(l.agent, Step(c, l, ev).agent, got);
    }
  }

  lemma GatewayStep(c: Codec, l: Link, ev: Event, got: Accepted)
    requires SideOk(l.gateway, Responder) && Remembers(l.gateway, got)
    ensures Remembers(Step(c, l, ev).gateway, got + GatewayAccepts(l, ev))
  {
    if ev.ToGateway? && Deliverable(l, ev.body) {
      GatewayReceiveRemembers(c, l, ev, got);
    } else {
      assert got + {} == got;
      QuietRemembers(l.gateway, Step(c, l, ev).gateway, got);
    }
  }

  lemma {:induction false} TrackRemembers(c: Codec, n: nat, agentIndex: u32, gatewayIndex: u32, now: nat,
                                          evs: seq<Event>)
    requires Lossless(c)
    ensures var start := NewLink(n, agentIndex, gatewayIndex, now);
            var t := Track(c, start, evs);
            && t.link == Run(c, start, evs) && Inv(c, t.link)
            && Remembers(t.link.agent, t.byAgent) && Remembers(t.link.gateway, t.byGateway)
  {
    var start := NewLink(n, agentIndex, gatewayIndex, now);
    RunKeeps(c, n, agentIndex, gatewayIndex, now, evs);
    if evs != [] {
      var before, ev := evs[..|evs| - 1], evs[|evs| - 1];
      TrackRemembers(c, n, agentIndex, gatewayIndex, now, before);
      var t := Track(c, start, before);
      AgentStep(c, t.link, ev, t.byAgent);
      GatewayStep(c, t.link, ev, t.byGateway);
    }
  }

  // ---------- delivery over the history ----------

  /** The end is open and holds the epoch the body was sealed in, has not accepted its counter in that
      epoch, and has accepted none there a whole window ahead of it. */
  ghost predicate Expects(s: State, got: Accepted, body: Body) {
    && !s.closed && body.Sealed? && (exists e :: Holds(s, e) && body.key == e.cipher.recv)
    && RW.Fresh(Under(got, body.key), body.nonce)
  }

  lemma ExpectsIsAwaits(s: State, got: Accepted, body: Body)
    requires Remembers(s, got)
    ensures Expects(s, got, body) <==> Awaits(s, body) && !s.closed
  {
    if body.Sealed? {
      forall e | Holds(s, e) && body.key == e.cipher.recv
        ensures RW.Refuses(e.cipher.window, body.nonce) <==> !RW.Fresh(Under(got, body.key), body.nonce)
      {
        RW.UpdateRefines(e.cipher.window, Under(got, body.key), body.nonce);
      }
    }
  }

  /** At the end of every run, over any network, an end opens a body exactly when it comes under the
      header it was sent with and the end, by all it has accepted so far, still expects it; it then
      opens to what was sealed. */
  lemma DeliveredExactly(c: Codec, n: nat, agentIndex: u32, gatewayIndex: u32, now: nat, evs: seq<Event>,
                         atAgent: bool, h: Header, body: Body)
    requires Lossless(c)
    ensures var t := Track(c, NewLink(n, agentIndex, gatewayIndex, now), evs);
            var s, got := if atAgent then t.link.agent else t.link.gateway, if atAgent then t.byAgent else t.byGateway;
            Deliverable(t.link, body) ==>
              && (Opening(s, h, body).1.Ok? <==> Sent(h, body) in t.link.sent && Expects(s, got, body))
              && (Opening(s, h, body).1.Ok? ==> body.Sealed? && Opening(s, h, body).1 == DecodeInner(body.plaintext))
  {
    TrackRemembers(c, n, agentIndex, gatewayIndex, now, evs);
    var t := Track(c, NewLink(n, agentIndex, gatewayIndex, now), evs);
    var s, got := if atAgent then t.link.agent else t.link.gateway, if atAgent then t.byAgent else t.byGateway;
    if Deliverable(t.link, body) {
      OpensExactly(c, t.link, s, h, body);
      ExpectsIsAwaits(s, got, body);
    }
  }
}
