/** The two ends of the tunnel as objects: the agent's event handler and the gateway's, each proved to
    take the protocol's steps. */
module Endpoints {
  import opened Wrappers
  import opened Bytes
  import opened Datagram
  import opened RekeyProtocol
  import S = Session

  /** What one end put on the network. */
  function OnWire(wire: Option<Sent>): set<Sent> {
    if wire.Some? then {wire.value} else {}
  }

  /** Seal a message and hand it to the socket; either can fail. */
  method SendInner(s: S.Session, inner: Inner, attempt: Attempt) returns (wire: Option<Sent>)
    requires s.Valid()
    modifies s.current.cipher.counter
    ensures forall sent: set<Sent> ::
              Emit(old(s.View()), inner, attempt, sent) == Emitted(s.View(), sent + OnWire(wire), wire.Some?)
  {
    if attempt.NotSealed? {
      wire := None;
      assert forall sent: set<Sent> :: sent + {} == sent;
      return;
    }
    var header := S.HeaderFor(s.View());
    var r := s.Seal(inner);
    wire := if r.Ok? && attempt.OnTheWire? then Some(Sent(header, r.value.body)) else None;
    assert forall sent: set<Sent> :: sent + {} == sent;
  }

  /** An initiator's epoch has lasted, or sent, long enough to be replaced. */
  predicate OldEnough(s: S.State, rekeyAfter: nat, rekeyAfterPackets: nat, now: nat) {
    s.role.Initiator? && (now - s.current.started >= rekeyAfter || s.current.cipher.counter >= rekeyAfterPackets)
  }

  /** The agent: one hub session, the queued rekey event and the offer waiting for its answer. */
  class Agent {
    const session: S.Session
    var due: bool
    var pending: Option<Offer>

    constructor (session: S.Session)
      ensures this.session == session && !due && pending == None
    {
      this.session := session;
      due := false;
      pending := None;
    }

    /** This end's part of the protocol state. */
    ghost predicate In(l: Link)
      reads this, session, session.Windows(), session.Counters()
    {
      session.Valid() && l.agent == session.View() && l.due == due && Slot(l) == pending
    }

    /** An idle session is left alone; otherwise the thresholds decide whether the timer fires, and the
        flag whether firing does anything. */
    method Tick(idleFor: nat, idleTimeout: nat, rekeyAfter: nat, rekeyAfterPackets: nat, now: nat, ghost l: Link)
      returns (idle: bool)
      requires In(l)
      modifies this, session
      ensures idle == (!l.agent.closed && idleFor >= idleTimeout)
      ensures In(if !idle && OldEnough(l.agent, rekeyAfter, rekeyAfterPackets, now) then TimerFires(l) else l)
    {
      if session.closed { return false; }
      if idleFor >= idleTimeout { return true; }
      var cur := session.current;
      if session.role == S.Initiator && !session.rekeyPending
         && (now - cur.started >= rekeyAfter || cur.cipher.counter.value >= rekeyAfterPackets)
      {
        session.rekeyPending := true;
        due := true;
      }
      idle := false;
    }

    method HandleRekeyDue(c: Codec, eph: nat, index: u32, attempt: Attempt, ghost l: Link) returns (wire: Option<Sent>)
      requires In(l) && l.ephs == eph
      modifies this, session, session.current.cipher.counter
      ensures In(HandleDue(c, l, attempt, index)) && HandleDue(c, l, attempt, index).sent == l.sent + OnWire(wire)
    {
      wire := None;
      assert l.sent + {} == l.sent;
      if !due { return; }
      due := false;
      if index == 0 || index in S.Indexes(session.View()) {
        session.rekeyPending := false;
        return;
      }
      var frame := RekeyFrame(session.epoch + 1, eph, index);
      wire := SendInner(session, Control(c.enc(frame)), attempt);
      if wire.Some? {
        pending := Some(Offer(eph, index));
      } else {
        session.rekeyPending := false;
      }
    }

    /** Empty the slot, then complete; if that fails nothing else changes. */
    method HandleAck(f: Frame, completes: bool, now: nat, ghost l: Link)
      requires In(l) && f.RekeyAck?
      modifies this, session
      ensures In(CompleteRekey(l, f, completes, now))
    {
      var offer := pending;
      pending := None;
      if offer.Some? && completes {
        var shared := S.Decapsulate(offer.value.eph, f.ct);
        session.Rotate(S.Rekey(session.current.keys, shared), offer.value.index, f.newIndex, now);
      }
    }

    method Receive(c: Codec, h: Header, body: S.Body, completes: bool, now: nat, ghost l: Link)
      requires In(l)
      modifies this, session, session.Windows()
      ensures In(AgentReceives(c, l, h, body, completes, now))
    {
      var r := session.Open(h, body);
      if r.Err? || !r.value.Control? { return; }
      match c.dec(r.value.frame) {
        case Some(RekeyAck(n, ct, i)) =>
          HandleAck(RekeyAck(n, ct, i), completes, now, l.(agent := session.View()));
        case Some(CloseFrame) => session.Close();
        case _ =>
      }
    }
  }

  /** The gateway's end of one session. */
  class GatewayEnd {
    const session: S.Session

    constructor (session: S.Session)
      ensures this.session == session
    {
      this.session := session;
    }

    ghost predicate In(l: Link)
      reads session, session.Windows(), session.Counters()
    {
      session.Valid() && l.gateway == session.View()
    }

    /** Answer under the current epoch, then rotate. */
    method HandleRekey(c: Codec, f: Frame, seed: nat, index: u32, attempt: Attempt, now: nat, ghost l: Link)
      returns (wire: Option<Sent>)
      requires In(l) && f.RekeyFrame? && l.seeds == seed
      modifies session, session.current.cipher.counter
      ensures var l' := AnswerRekey(c, l, f, attempt, index, now); In(l') && l'.sent == l.sent + OnWire(wire)
    {
      wire := None;
      assert l.sent + {} == l.sent;
      var next := S.Rekey(session.current.keys, S.Agreed(f.eph, seed));
      if index == 0 || index in S.Indexes(session.View()) { return; }
      var ack := RekeyAck(f.newEpoch, S.Encapsulated(f.eph, seed), index);
      wire := SendInner(session, Control(c.enc(ack)), attempt);
      if wire == None { return; }
      session.Rotate(next, index, f.newIndex, now);
    }

    method Receive(c: Codec, h: Header, body: S.Body, seed: nat, index: u32, attempt: Attempt, now: nat, ghost l: Link)
      returns (wire: Option<Sent>)
      requires In(l) && l.seeds == seed
      modifies session, session.Windows(), session.current.cipher.counter
      ensures var l' := GatewayReceives(c, l, h, body, attempt, index, now); In(l') && l'.sent == l.sent + OnWire(wire)
    {
      wire := None;
      assert l.sent + {} == l.sent;
      var r := session.Open(h, body);
      if r.Err? || !r.value.Control? { return; }
      match c.dec(r.value.frame) {
        case Some(RekeyFrame(n, eph, i)) =>
          wire := HandleRekey(c, RekeyFrame(n, eph, i), seed, index, attempt, now, l.(gateway := session.View()));
        case Some(CloseFrame) => session.Close();
        case _ =>
      }
    }
  }
}
