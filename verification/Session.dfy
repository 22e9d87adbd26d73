/** One tunnel session: a current epoch, possibly the previous one, and the operations that seal,
    open and rotate. Cryptography is symbolic: an AEAD body opens only under the key, nonce and
    associated data it was sealed with, derived keys are equal only if their inputs are, and a KEM
    ciphertext yields the encapsulated secret only under the key pair it was made for. */
module Session {
  import opened Wrappers
  import opened Bytes
  import opened Datagram
  import RW = ReplayWindow

  datatype Role = Initiator | Responder

  datatype Direction = I2R | R2I

  // ---------- keys ----------

  datatype Ciphertext = Encapsulated(eph: nat, seed: nat)

  datatype Shared = Agreed(eph: nat, seed: nat) | Rejected(eph: nat, ct: Ciphertext)

  function Decapsulate(eph: nat, ct: Ciphertext): Shared {
    if ct.eph == eph then Agreed(eph, ct.seed) else Rejected(eph, ct)
  }

  datatype Secret = Established(n: nat) | Rekeyed(from: Secret, epoch: nat, shared: Shared)

  datatype SessionKeys = SessionKeys(secret: Secret, epoch: nat)

  function Rekey(k: SessionKeys, ss: Shared): SessionKeys {
    SessionKeys(Rekeyed(k.secret, k.epoch, ss), k.epoch + 1)
  }

  datatype Key = Key(keys: SessionKeys, dir: Direction)

  function SendKey(k: SessionKeys, role: Role): Key {
    Key(k, if role.Initiator? then I2R else R2I)
  }

  function RecvKey(k: SessionKeys, role: Role): Key {
    Key(k, if role.Initiator? then R2I else I2R)
  }

  // ---------- one epoch's cipher ----------

  datatype Body = Sealed(key: Key, nonce: u64, aad: seq<byte>, plaintext: seq<byte>) | Junk(bytes: seq<byte>)

  function BodyLength(b: Body): nat {
    if b.Sealed? then |b.plaintext| + TAG_LEN else |b.bytes|
  }

  datatype Packet = Packet(header: seq<byte>, body: Body)

  datatype Cipher = Cipher(send: Key, recv: Key, counter: u64, window: RW.Window)

  function NewCipher(k: SessionKeys, role: Role): Cipher {
    Cipher(SendKey(k, role), RecvKey(k, role), 0, RW.FRESH)
  }

  /** Authenticate first, then commit the counter, so a forgery cannot disturb the window. */
  function OpenBody(c: Cipher, counter: u64, aad: seq<byte>, body: Body): Result<(Cipher, seq<byte>), TunnelError> {
    if c.window.highest.Some? && c.window.highest.value >= counter
       && c.window.highest.value - counter >= RW.SIZE then Err(Replay)
    else if !body.Sealed? || body.key != c.recv || body.nonce != counter || body.aad != aad
    then Err(AuthenticationFailed)
    else
      match RW.Update(c.window, counter)
      case Ok(w) => Ok((c.(window := w), body.plaintext))
      case Err(_) => Err(Replay)
  }

  // ---------- the session ----------

  datatype Epoch = Epoch(local: u32, remote: u32, cipher: Cipher, keys: SessionKeys, started: nat)

  datatype Aged = Aged(epoch: Epoch, since: nat)

  datatype State = State(role: Role, current: Epoch, previous: Option<Aged>, epoch: nat, closed: bool,
                         rekeyPending: bool)

  function NewEpoch(role: Role, keys: SessionKeys, local: u32, remote: u32, now: nat): Epoch {
    Epoch(local, remote, NewCipher(keys, role), keys, now)
  }

  function NewState(role: Role, keys: SessionKeys, local: u32, remote: u32, now: nat): State {
    State(role, NewEpoch(role, keys, local, remote, now), None, keys.epoch, false, false)
  }

  /** Every local index the session can still be addressed by. */
  function Indexes(s: State): seq<u32> {
    [s.current.local] + if s.previous.Some? then [s.previous.value.epoch.local] else []
  }

  function HeaderFor(s: State): Header {
    Header(TYPE_DATA, if s.previous.Some? then FLAG_EPOCH_OVERLAP else 0, s.current.remote, s.current.cipher.counter)
  }

  function Sealing(s: State, inner: Inner): Result<(State, Packet), TunnelError> {
    if s.closed then Err(Closed)
    else if s.current.cipher.counter >= RW.LIMIT then Err(CounterExhausted)
    else
      var c := s.current.cipher;
      var aad := EncodeHeader(HeaderFor(s));
      Ok((s.(current := s.current.(cipher := c.(counter := c.counter + 1))),
          Packet(aad, Sealed(c.send, c.counter, aad, EncodeInner(inner)))))
  }

  /** The state after an attempt to open, and what was read. */
  function Opening(s: State, h: Header, body: Body): (State, Result<Inner, TunnelError>) {
    if s.closed then (s, Err(Closed))
    else if s.current.local == h.receiverIndex then
      match OpenBody(s.current.cipher, h.counter, EncodeHeader(h), body)
      case Ok(r) => (s.(current := s.current.(cipher := r.0)), DecodeInner(r.1))
      case Err(e) => (s, Err(e))
    else if s.previous.Some? && s.previous.value.epoch.local == h.receiverIndex then
      var p := s.previous.value;
      match OpenBody(p.epoch.cipher, h.counter, EncodeHeader(h), body)
      case Ok(r) => (s.(previous := Some(p.(epoch := p.epoch.(cipher := r.0)))), DecodeInner(r.1))
      case Err(e) => (s, Err(e))
    else (s, Err(UnknownIndex(h.receiverIndex)))
  }

  /** Install a new epoch, keeping the old one addressable for the overlap. */
  function Rotated(s: State, keys: SessionKeys, local: u32, remote: u32, now: nat): State {
    s.(current := NewEpoch(s.role, keys, local, remote, now), previous := Some(Aged(s.current, now)),
       epoch := s.epoch + 1, rekeyPending := false)
  }

  function Expired(s: State, overlap: nat, now: nat): (State, Option<u32>) {
    match s.previous
    case Some(p) =>
      if now >= p.since + overlap then (s.(previous := None), Some(p.epoch.local)) else (s, None)
    case None => (s, None)
  }

  // ---------- sealing and opening ----------

  /** `e` is a slot of `s`: its current epoch or the one before. */
  predicate Holds(s: State, e: Epoch) {
    e == s.current || (s.previous.Some? && e == s.previous.value.epoch)
  }

  predicate DistinctIndexes(s: State) {
    s.previous.Some? ==> s.previous.value.epoch.local != s.current.local
  }

  /** A packet sealed by one end, reaching the other while that end still holds the epoch and its
      window does not refuse the counter, opens to what was sealed. */
  lemma SealedOpens(sender: State, inner: Inner, receiver: State, e: Epoch)
    requires Sealing(sender, inner).Ok?
    requires !receiver.closed && DistinctIndexes(receiver) && Holds(receiver, e)
    requires e.cipher.recv == sender.current.cipher.send && e.local == sender.current.remote
    requires !RW.Refuses(e.cipher.window, sender.current.cipher.counter)
    ensures var p := Sealing(sender, inner).value.1;
            var h := HeaderFor(sender);
            DecodeHeader(p.header) == Ok((h, [])) && Opening(receiver, h, p.body).1 == Ok(inner)
  {
    HeaderRoundTrip(HeaderFor(sender), []);
    assert EncodeHeader(HeaderFor(sender)) + [] == EncodeHeader(HeaderFor(sender));
    InnerRoundTrip(inner);
  }

  /** Whatever is not authentic for the slot it names, or names none, leaves the receiver as it was. */
  lemma UnopenedUnchanged(s: State, h: Header, body: Body)
    requires Opening(s, h, body).0 != s
    ensures body.Sealed? && body.nonce == h.counter && body.aad == EncodeHeader(h)
    ensures exists e :: Holds(s, e) && e.local == h.receiverIndex && e.cipher.recv == body.key
                        && !RW.Refuses(e.cipher.window, body.nonce)
  {
    if s.current.local == h.receiverIndex {
      assert Holds(s, s.current);
    } else {
      assert Holds(s, s.previous.value.epoch);
    }
  }

  lemma UnknownIndexDropped(s: State, h: Header, body: Body)
    requires h.receiverIndex !in Indexes(s)
    ensures Opening(s, h, body).0 == s && Opening(s, h, body).1.Err?
  {
    assert s.current.local in Indexes(s);
    if s.previous.Some? { assert Indexes(s)[1] == s.previous.value.epoch.local; }
  }

  /** For the length of the overlap a rotation changes nothing for packets of the epoch before it, and
      that epoch is dropped, its index handed back, exactly when the overlap has passed. */
  lemma RotationKeepsOld(s: State, keys: SessionKeys, local: u32, remote: u32, at: nat, overlap: nat, now: nat,
                         h: Header, body: Body)
    requires local != s.current.local && h.receiverIndex == s.current.local
    ensures var s' := Expired(Rotated(s, keys, local, remote, at), overlap, now);
            if now < at + overlap then
              s'.1 == None && Opening(s'.0, h, body).1 == Opening(s, h, body).1
            else
              s'.1 == Some(s.current.local) && Opening(s'.0, h, body).1.Err?
  {
  }

  /** An overlay packet within the MTU produces a datagram within the advertised bound. */
  lemma SealedFits(s: State, packet: seq<byte>, mtu: u16)
    requires Sealing(s, IpPacket(packet)).Ok?
    ensures |packet| <= mtu <==>
            |Sealing(s, IpPacket(packet)).value.1.header| + BodyLength(Sealing(s, IpPacket(packet)).value.1.body)
            <= MaxUdpPayload(mtu)
  {
  }

  // ---------- the cipher object ----------

  /** One epoch's keys with its send counter and replay window, both changed in place. */
  class SessionCipher {
    const send: Key
    const recv: Key
    const counter: RW.SendCounter
    const window: RW.Receiver

    constructor (keys: SessionKeys, role: Role)
      ensures fresh(counter) && fresh(window) && View() == NewCipher(keys, role)
    {
      send := SendKey(keys, role);
      recv := RecvKey(keys, role);
      counter := new RW.SendCounter();
      window := new RW.Receiver();
    }

    function View(): Cipher
      reads counter, window
    {
      Cipher(send, recv, counter.value, window.View())
    }

    /** The associated data is built from the very counter the body is sealed under. */
    method SealWith(aadFor: u64 -> seq<byte>, plaintext: seq<byte>) returns (r: Option<Body>)
      modifies counter
      ensures var n := old(counter.value);
              if n >= RW.LIMIT then r == None && View() == old(View())
              else r == Some(Sealed(send, n, aadFor(n), plaintext)) && View() == old(View()).(counter := n + 1)
    {
      var n := counter.Next();
      if n == None { return None; }
      r := Some(Sealed(send, n.value, aadFor(n.value), plaintext));
    }

    /** Authenticate first, then commit the counter. */
    method Open(n: u64, aad: seq<byte>, body: Body) returns (r: Result<seq<byte>, TunnelError>)
      modifies window
      ensures match OpenBody(old(View()), n, aad, body)
              case Ok(p) => View() == p.0 && r == Ok(p.1)
              case Err(e) => View() == old(View()) && r == Err(e)
    {
      var highest := window.highest;
      if highest.Some? && highest.value >= n && highest.value - n >= RW.SIZE { return Err(Replay); }
      if !body.Sealed? || body.key != recv || body.nonce != n || body.aad != aad { return Err(AuthenticationFailed); }
      var updated := window.CheckAndUpdate(n);
      r := if updated.Err? then Err(Replay) else Ok(body.plaintext);
    }
  }

  // ---------- the session object ----------

  /** An installed epoch: its indexes and keys are fixed, its cipher moves on. */
  class LiveEpoch {
    const local: u32
    const remote: u32
    const cipher: SessionCipher
    const keys: SessionKeys
    const started: nat

    constructor (role: Role, keys: SessionKeys, local: u32, remote: u32, now: nat)
      ensures fresh(cipher) && fresh(cipher.counter) && fresh(cipher.window)
      ensures View() == NewEpoch(role, keys, local, remote, now)
    {
      this.local := local;
      this.remote := remote;
      this.cipher := new SessionCipher(keys, role);
      this.keys := keys;
      this.started := now;
    }

    function View(): Epoch
      reads cipher.counter, cipher.window
    {
      Epoch(local, remote, cipher.View(), keys, started)
    }
  }

  datatype Replaced = Replaced(epoch: LiveEpoch, since: nat)

  class Session {
    const id: nat
    const role: Role
    var current: LiveEpoch
    var previous: Option<Replaced>
    var epoch: nat
    var closed: bool
    var rekeyPending: bool

    constructor (id: nat, role: Role, keys: SessionKeys, local: u32, remote: u32, now: nat)
      ensures this.id == id && Valid() && fresh(Windows()) && fresh(Counters())
      ensures View() == NewState(role, keys, local, remote, now)
    {
      this.id := id;
      this.role := role;
      current := new LiveEpoch(role, keys, local, remote, now);
      previous := None;
      epoch := keys.epoch;
      closed := false;
      rekeyPending := false;
    }

    ghost function Windows(): set<RW.Receiver>
      reads this
    {
      {current.cipher.window} + if previous.Some? then {previous.value.epoch.cipher.window} else {}
    }

    ghost function Counters(): set<RW.SendCounter>
      reads this
    {
      {current.cipher.counter} + if previous.Some? then {previous.value.epoch.cipher.counter} else {}
    }

    /** The two epochs share neither counter nor window. */
    ghost predicate Valid()
      reads this
    {
      previous.Some? ==>
        && previous.value.epoch.cipher.window != current.cipher.window
        && previous.value.epoch.cipher.counter != current.cipher.counter
    }

    function View(): State
      reads this, Windows(), Counters()
    {
      var p := if previous.Some? then Some(Aged(previous.value.epoch.View(), previous.value.since)) else None;
      State(role, current.View(), p, epoch, closed, rekeyPending)
    }

    method Seal(inner: Inner) returns (r: Result<Packet, TunnelError>)
      requires Valid()
      modifies current.cipher.counter
      ensures match Sealing(old(View()), inner)
              case Ok(p) => View() == p.0 && r == Ok(p.1)
              case Err(e) => View() == old(View()) && r == Err(e)
    {
      if closed { return Err(Closed); }
      var flags, remote := if previous.Some? then FLAG_EPOCH_OVERLAP else 0, current.remote;
      var header := (n: u64) => EncodeHeader(Header(TYPE_DATA, flags, remote, n));
      var n := current.cipher.counter.value;
      var body := current.cipher.SealWith(header, EncodeInner(inner));
      if body == None { return Err(CounterExhausted); }
      r := Ok(Packet(header(n), body.value));
    }

    method Open(h: Header, body: Body) returns (r: Result<Inner, TunnelError>)
      requires Valid()
      modifies Windows()
      ensures View() == Opening(old(View()), h, body).0 && r == Opening(old(View()), h, body).1
    {
      if closed { return Err(Closed); }
      var aad := EncodeHeader(h);
      var result: Result<seq<byte>, TunnelError>;
      if current.local == h.receiverIndex {
        result := current.cipher.Open(h.counter, aad, body);
      } else if previous.Some? && previous.value.epoch.local == h.receiverIndex {
        result := previous.value.epoch.cipher.Open(h.counter, aad, body);
      } else {
        return Err(UnknownIndex(h.receiverIndex));
      }
      if result.Err? { return Err(result.error); }
      r := DecodeInner(result.value);
    }

    method Rotate(keys: SessionKeys, local: u32, remote: u32, now: nat)
      requires Valid()
      modifies `current, `previous, `epoch, `rekeyPending
      ensures Valid() && View() == Rotated(old(View()), keys, local, remote, now)
    {
      var before := current;
      current := new LiveEpoch(role, keys, local, remote, now);
      previous := Some(Replaced(before, now));
      epoch := epoch + 1;
      rekeyPending := false;
    }

    method ExpirePreviousEpoch(overlap: nat, now: nat) returns (released: Option<u32>)
      requires Valid()
      modifies `previous
      ensures Valid()
      ensures View() == Expired(old(View()), overlap, now).0 && released == Expired(old(View()), overlap, now).1
    {
      if previous.Some? && now >= previous.value.since + overlap {
        released := Some(previous.value.epoch.local);
        previous := None;
      } else {
        released := None;
      }
    }

    method Close()
      modifies `closed
      ensures View() == old(View()).(closed := true) && (old(Valid()) ==> Valid())
    {
      closed := true;
    }
  }
}
