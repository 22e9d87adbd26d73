/** Challenges, quote verification and the pinning of attestation keys in the device row. Hashing and
    signature checks are parameters; the clock and the database's failures are inputs. */
module Attestation {
  import opened Wrappers
  import opened Bytes
  import opened Cursor
  import E = Evidence
  import Q = Quote

  type Device = nat

  datatype Level = NoHardware | Unverified | Verified | Failed

  /** `verifies(ak, message, signature)` covers decoding the key and the signature. */
  datatype Crypto = Crypto(sha256: seq<byte> -> seq<byte>, verifies: (seq<byte>, seq<byte>, seq<byte>) -> bool)

  datatype Policy = Policy(requiredPcrs: seq<u32>, allowUnknownAk: bool, requireSafeClock: bool)

  const DEFAULT_POLICY := Policy([0, 7], true, true)

  // ---------- verifying a quote ----------

  /** The value sent for a PCR: the first entry with its index. */
  function Sent(pcrs: seq<E.Pcr>, index: u32): Option<seq<byte>> {
    if pcrs == [] then None
    else if pcrs[0].index == index then Some(pcrs[0].value)
    else Sent(pcrs[1..], index)
  }

  /** The values of the quoted PCRs one after another, if every one was sent. */
  function Hashed(selected: seq<u32>, pcrs: seq<E.Pcr>): Option<seq<byte>> {
    if selected == [] then Some([]) else
    var before :- Hashed(selected[..|selected| - 1], pcrs);
    var last :- Sent(pcrs, selected[|selected| - 1]);
    Some(before + last)
  }

  /** The quote answers the challenge, covers what the policy asks for and matches the values sent. */
  predicate Matches(c: Crypto, e: E.Evidence, q: Q.QuoteAttest, nonce: seq<byte>, policy: Policy)
    requires e.Tpm2Quote?
  {
    && q.extraData == nonce && (policy.requireSafeClock ==> q.clock.safe)
    && (forall r | r in policy.requiredPcrs :: r in q.selectedPcrs)
    && Hashed(q.selectedPcrs, e.pcrs).Some?
    && c.sha256(Hashed(q.selectedPcrs, e.pcrs).value) == q.pcrDigest
    && c.verifies(e.akPublic, e.quote, e.signature)
  }

  predicate Convincing(c: Crypto, e: E.Evidence, nonce: seq<byte>, policy: Policy)
    requires e.Tpm2Quote?
  {
    Q.Parsing(e.quote).Some? && Matches(c, e, Q.Parsing(e.quote).value, nonce, policy)
  }

  predicate KeyAccepted(ak: seq<byte>, known: Option<seq<byte>>, policy: Policy) {
    if known.Some? then known.value == ak else policy.allowUnknownAk
  }

  function Verifying(c: Crypto, e: E.Evidence, nonce: seq<byte>, known: Option<seq<byte>>, policy: Policy): Level {
    if e.NoEvidence? then NoHardware
    else if Convincing(c, e, nonce, policy) && KeyAccepted(e.akPublic, known, policy) then Verified
    else Failed
  }

  lemma {:induction false} HashedMisses(selected: seq<u32>, pcrs: seq<E.Pcr>, i: nat)
    requires i < |selected| && Sent(pcrs, selected[i]) == None
    ensures Hashed(selected, pcrs) == None
  {
    if i < |selected| - 1 { HashedMisses(selected[..|selected| - 1], pcrs, i); }
  }

  method FindPcr(pcrs: seq<E.Pcr>, index: u32) returns (v: Option<seq<byte>>)
    ensures v == Sent(pcrs, index)
  {
    var i := 0;
    while i < |pcrs|
      invariant 0 <= i <= |pcrs| && Sent(pcrs, index) == Sent(pcrs[i..], index)
    {
      if pcrs[i].index == index { return Some(pcrs[i].value); }
      assert pcrs[i..][1..] == pcrs[i + 1..];
      i := i + 1;
    }
    v := None;
  }

  method HashPcrs(selected: seq<u32>, pcrs: seq<E.Pcr>) returns (h: Option<seq<byte>>)
    ensures h == Hashed(selected, pcrs)
  {
    var data: seq<byte> := [];
    for i := 0 to |selected|
      invariant Hashed(selected[..i], pcrs) == Some(data)
    {
      assert selected[..i + 1][..i] == selected[..i];
      var v := FindPcr(pcrs, selected[i]);
      if v == None {
        HashedMisses(selected, pcrs, i);
        return None;
      }
      data := data + v.value;
    }
    assert selected[..|selected|] == selected;
    h := Some(data);
  }

  /** The checks in the order the code makes them, each failing on its own. */
  method CheckQuote(c: Crypto, e: E.Evidence, q: Q.QuoteAttest, nonce: seq<byte>, policy: Policy) returns (ok: bool)
    requires e.Tpm2Quote?
    ensures ok == Matches(c, e, q, nonce, policy)
  {
    if q.extraData != nonce { return false; }
    if policy.requireSafeClock && !q.clock.safe { return false; }
    for i := 0 to |policy.requiredPcrs|
      invariant forall k :: 0 <= k < i ==> policy.requiredPcrs[k] in q.selectedPcrs
    {
      if policy.requiredPcrs[i] !in q.selectedPcrs { return false; }
    }
    var data := HashPcrs(q.selectedPcrs, e.pcrs);
    if data == None { return false; }
    if c.sha256(data.value) != q.pcrDigest { return false; }
    ok := c.verifies(e.akPublic, e.quote, e.signature);
  }

  method Verify(c: Crypto, e: E.Evidence, nonce: seq<byte>, known: Option<seq<byte>>, policy: Policy) returns (r: Level)
    ensures r == Verifying(c, e, nonce, known, policy)
  {
    if e.NoEvidence? { return NoHardware; }
    var q := Q.ParseQuote(e.quote);
    if q == None { return Failed; }
    var ok := CheckQuote(c, e, q.value, nonce, policy);
    if !ok { return Failed; }
    if known.Some? {
      r := if known.value == e.akPublic then Verified else Failed;
    } else {
      r := if policy.allowUnknownAk then Verified else Failed;
    }
  }

  // ---------- challenges ----------

  const CHALLENGE_TTL: nat := 120

  datatype Outstanding = Outstanding(nonce: seq<byte>, issued: nat)

  /** The device's attestation columns: the last state and the pinned key. */
  datatype Row = Row(level: Level, ak: Option<seq<byte>>)

  datatype State = State(challenges: map<Device, Outstanding>, rows: map<Device, Row>, now: nat)

  predicate Answerable(o: Outstanding, now: nat) { now - o.issued <= CHALLENGE_TTL }

  function Taking(s: State, d: Device): Option<seq<byte>> {
    if d in s.challenges && Answerable(s.challenges[d], s.now) then Some(s.challenges[d].nonce) else None
  }

  /** Merging into the row keeps a pinned key unless a verified outcome brings one; no row, no write. */
  function Recorded(rows: map<Device, Row>, d: Device, level: Level, ak: Option<seq<byte>>): map<Device, Row> {
    if d !in rows then rows
    else rows[d := Row(level, if level.Verified? && ak.Some? then ak else rows[d].ak)]
  }

  function Known(rows: map<Device, Row>, d: Device): Option<seq<byte>> {
    if d in rows then rows[d].ak else None
  }

  /** What decoding a submission gave. */
  type Parsed = Result<E.Evidence, E.AttestError>

  /** Whether a quote convinces, given the nonce it should answer. */
  type Judge = (E.Evidence, seq<byte>) -> bool

  /** The judge the program is: the quote checks under the default policy. */
  function QuoteJudge(c: Crypto): Judge {
    (e: E.Evidence, nonce: seq<byte>) => e.Tpm2Quote? && Convincing(c, e, nonce, DEFAULT_POLICY)
  }

  /** What a piece of evidence comes to, before it is written down. */
  function Judging(judge: Judge, known: Option<seq<byte>>, nonce: seq<byte>, parsed: Parsed): Level {
    match parsed
    case Err(_) => Failed
    case Ok(e) =>
      if e.NoEvidence? then NoHardware
      else if judge(e, nonce) && KeyAccepted(e.akPublic, known, DEFAULT_POLICY) then Verified
      else Failed
  }

  function KeyOf(parsed: Parsed): Option<seq<byte>> {
    if parsed.Ok? && parsed.value.Tpm2Quote? then Some(parsed.value.akPublic) else None
  }

  /** Reading the pinned key only happens for a quote; either database call may fail. */
  predicate Aborted(parsed: Parsed, readFails: bool, writeFails: bool) {
    writeFails || (readFails && KeyOf(parsed).Some?)
  }

  /** The outcome, `None` when the database was unavailable. The challenge is spent either way. */
  function Handling(judge: Judge, s: State, d: Device, parsed: Parsed, readFails: bool, writeFails: bool)
    : (State, Option<Level>) {
    var spent := s.(challenges := s.challenges - {d});
    match Taking(s, d)
    case None => (spent, Some(Unverified))
    case Some(nonce) =>
      if Aborted(parsed, readFails, writeFails) then (spent, None)
      else
        var level := Judging(judge, Known(s.rows, d), nonce, parsed);
        (spent.(rows := Recorded(s.rows, d, level, KeyOf(parsed))), Some(level))
  }

  function Swept(s: State): State {
    s.(challenges := map d | d in s.challenges && Answerable(s.challenges[d], s.now) :: s.challenges[d])
  }

  // ---------- the control plane's object ----------

  class Control {
    var challenges: map<Device, Outstanding>
    var rows: map<Device, Row>

    constructor (rows: map<Device, Row>)
      ensures View(0) == State(map[], rows, 0)
    {
      challenges := map[];
      this.rows := rows;
    }

    function View(now: nat): State
      reads this
    {
      State(challenges, rows, now)
    }

    method Issue(d: Device, nonce: seq<byte>, now: nat)
      modifies `challenges
      ensures challenges == old(challenges)[d := Outstanding(nonce, now)]
    {
      challenges := challenges[d := Outstanding(nonce, now)];
    }

    method Take(d: Device, now: nat) returns (r: Option<seq<byte>>)
      modifies `challenges
      ensures challenges == old(challenges) - {d} && r == Taking(old(View(now)), d)
    {
      if d !in challenges { return None; }
      var out := challenges[d];
      challenges := challenges - {d};
      r := if now - out.issued <= CHALLENGE_TTL then Some(out.nonce) else None;
    }

    method Forget(d: Device)
      modifies `challenges
      ensures challenges == old(challenges) - {d}
    {
      challenges := challenges - {d};
    }

    method Sweep(now: nat)
      modifies `challenges
      ensures View(now) == Swept(old(View(now)))
    {
      challenges := map d | d in challenges && now - challenges[d].issued <= CHALLENGE_TTL :: challenges[d];
    }

    method Record(d: Device, level: Level, ak: Option<seq<byte>>, fails: bool) returns (ok: bool)
      modifies `rows
      ensures ok == !fails && rows == if fails then old(rows) else Recorded(old(rows), d, level, ak)
    {
      if fails { return false; }
      if d in rows {
        var pinned := if level == Verified && ak.Some? then ak else rows[d].ak;
        rows := rows[d := Row(level, pinned)];
      }
      ok := true;
    }

    method HandleEvidence(c: Crypto, d: Device, format: string, bytes: seq<byte>, readFails: bool, writeFails: bool,
                          now: nat)
      returns (r: Option<Level>)
      modifies this
      ensures (View(now), r)
              == Handling(QuoteJudge(c), old(View(now)), d, E.Parsing(format, bytes), readFails, writeFails)
    {
      var nonce := Take(d, now);
      if nonce == None { return Some(Unverified); }
      var parsed := E.Parse(format, bytes);
      var level, ak := Failed, None;
      if parsed.Ok? {
        if parsed.value.NoEvidence? {
          level := NoHardware;
        } else {
          if readFails { return None; }
          ak := Some(parsed.value.akPublic);
          level := Verify(c, parsed.value, nonce.value, Known(rows, d), DEFAULT_POLICY);
        }
      }
      var ok := Record(d, level, ak, writeFails);
      r := if ok then Some(level) else None;
    }
  }

  // ---------- runs ----------

  datatype Event =
    | Issue(device: Device, nonce: seq<byte>)
    | Forget(device: Device)
    | Sweep
    | Passes(time: nat)
    | Submit(device: Device, parsed: Parsed, readFails: bool, writeFails: bool)
    | RowAdded(device: Device)
    | RowDeleted(device: Device)

  function Step(judge: Judge, s: State, ev: Event): State {
    match ev
    case Issue(d, nonce) => s.(challenges := s.challenges[d := Outstanding(nonce, s.now)])
    case Forget(d) => s.(challenges := s.challenges - {d})
    case Sweep => Swept(s)
    case Passes(t) => s.(now := s.now + t)
    case Submit(d, e, readFails, writeFails) => Handling(judge, s, d, e, readFails, writeFails).0
    case RowAdded(d) => if d in s.rows then s else s.(rows := s.rows[d := Row(Unverified, None)])
    case RowDeleted(d) => s.(rows := s.rows - {d})
  }

  const START := State(map[], map[], 0)

  function Run(judge: Judge, evs: seq<Event>): State {
    if evs == [] then START else Step(judge, Run(judge, evs[..|evs| - 1]), evs[|evs| - 1])
  }

  /** The challenge a device has been given and not yet answered or lost, with nothing ever swept. */
  function Latest(judge: Judge, evs: seq<Event>, d: Device): Option<Outstanding> {
    if evs == [] then None else
    var before := evs[..|evs| - 1];
    match evs[|evs| - 1]
    case Issue(d', nonce) =>
      if d' == d then Some(Outstanding(nonce, Run(judge, before).now)) else Latest(judge, before, d)
    case Forget(d') => if d' == d then None else Latest(judge, before, d)
    case Submit(d', _, _, _) => if d' == d then None else Latest(judge, before, d)
    case _ => Latest(judge, before, d)
  }

  /** What evidence can be judged against is exactly the latest challenge, while it is unexpired:
      sweeping changes nothing observable. */
  lemma {:induction false} TakenIsLatest(judge: Judge, evs: seq<Event>, d: Device)
    ensures var s := Run(judge, evs);
            var o := Latest(judge, evs, d);
            && Taking(s, d) == (if o.Some? && Answerable(o.value, s.now) then Some(o.value.nonce) else None)
            && (d in s.challenges ==> o == Some(s.challenges[d]))
            && (o.Some? && d !in s.challenges ==> !Answerable(o.value, s.now))
  {
    if evs != [] { TakenIsLatest(judge, evs[..|evs| - 1], d); }
  }

  /** The latest challenge was issued at some step after which the device neither answered nor left. */
  lemma {:induction false} LatestWasIssued(judge: Judge, evs: seq<Event>, d: Device) returns (p: nat)
    requires Latest(judge, evs, d).Some?
    ensures p < |evs| && evs[p] == Issue(d, Latest(judge, evs, d).value.nonce)
    ensures forall k :: p < k < |evs| && (evs[k].Issue? || evs[k].Submit?) ==> evs[k].device != d
  {
    var n := |evs| - 1;
    if evs[n] == Issue(d, Latest(judge, evs, d).value.nonce) {
      p := n;
    } else {
      p := LatestWasIssued(judge, evs[..n], d);
    }
  }

  predicate FreshNonces(evs: seq<Event>) {
    forall i, j :: 0 <= i < j < |evs| && evs[i].Issue? && evs[j].Issue? ==> evs[i].nonce != evs[j].nonce
  }

  /** With fresh nonces, no two pieces of evidence are ever judged against the same one. */
  lemma NonceJudgesOnce(judge: Judge, evs: seq<Event>, i: nat, j: nat)
    requires FreshNonces(evs) && i < j < |evs| && evs[i].Submit? && evs[j].Submit?
    requires Taking(Run(judge, evs[..i]), evs[i].device).Some? && Taking(Run(judge, evs[..j]), evs[j].device).Some?
    ensures Taking(Run(judge, evs[..i]), evs[i].device) != Taking(Run(judge, evs[..j]), evs[j].device)
  {
    TakenIsLatest(judge, evs[..i], evs[i].device);
    TakenIsLatest(judge, evs[..j], evs[j].device);
    var p := LatestWasIssued(judge, evs[..i], evs[i].device);
    var q := LatestWasIssued(judge, evs[..j], evs[j].device);
    assert evs[..i][p] == evs[p] && evs[..j][q] == evs[q] && evs[..j][i] == evs[i];
  }

  // ---------- pinning ----------

  function OutcomeAt(judge: Judge, evs: seq<Event>, k: nat): Option<Level>
    requires k < |evs| && evs[k].Submit?
  {
    var ev := evs[k];
    Handling(judge, Run(judge, evs[..k]), ev.device, ev.parsed, ev.readFails, ev.writeFails).1
  }

  /** A verified outcome pins its key exactly when the device has a row. */
  lemma PinnedExact(judge: Judge, s: State, d: Device, parsed: Parsed, readFails: bool, writeFails: bool)
    requires Handling(judge, s, d, parsed, readFails, writeFails).1 == Some(Verified)
    ensures KeyOf(parsed).Some? && (Known(s.rows, d).Some? ==> Known(s.rows, d) == KeyOf(parsed))
    ensures Known(Handling(judge, s, d, parsed, readFails, writeFails).0.rows, d) == KeyOf(parsed) <==> d in s.rows
  {
  }

  lemma PinKept(judge: Judge, s: State, ev: Event, d: Device)
    requires Known(s.rows, d).Some? && ev != RowDeleted(d)
    ensures Known(Step(judge, s, ev).rows, d) == Known(s.rows, d)
  {
    if ev.Submit? && ev.device == d {
      var outcome := Handling(judge, s, d, ev.parsed, ev.readFails, ev.writeFails).1;
      if outcome == Some(Verified) { PinnedExact(judge, s, d, ev.parsed, ev.readFails, ev.writeFails); }
    }
  }

  lemma {:induction false} PinKeptOver(judge: Judge, evs: seq<Event>, i: nat, j: nat, d: Device)
    requires i <= j <= |evs| && Known(Run(judge, evs[..i]).rows, d).Some?
    requires forall k :: i <= k < j ==> evs[k] != RowDeleted(d)
    ensures Known(Run(judge, evs[..j]).rows, d) == Known(Run(judge, evs[..i]).rows, d)
    decreases j - i
  {
    if i < j {
      PinKeptOver(judge, evs, i, j - 1, d);
      assert evs[..j][..j - 1] == evs[..j - 1];
      PinKept(judge, Run(judge, evs[..j - 1]), evs[j - 1], d);
    }
  }

  lemma RunAppend(judge: Judge, evs: seq<Event>, ev: Event)
    ensures Run(judge, evs + [ev]) == Step(judge, Run(judge, evs), ev)
  {
    assert (evs + [ev])[..|evs|] == evs;
  }

  predicate VerifiedAt(judge: Judge, evs: seq<Event>, k: nat, d: Device) {
    k < |evs| && evs[k].Submit? && evs[k].device == d && OutcomeAt(judge, evs, k) == Some(Verified)
  }

  lemma KnownAfter(judge: Judge, evs: seq<Event>, i: nat, d: Device)
    requires VerifiedAt(judge, evs, i, d) && d in Run(judge, evs[..i]).rows
    ensures Known(Run(judge, evs[..i + 1]).rows, d) == KeyOf(evs[i].parsed) && KeyOf(evs[i].parsed).Some?
  {
    var ev := evs[i];
    PinnedExact(judge, Run(judge, evs[..i]), d, ev.parsed, ev.readFails, ev.writeFails);
    assert evs[..i + 1] == evs[..i] + [ev];
    RunAppend(judge, evs[..i], ev);
  }

  lemma KnownBefore(judge: Judge, evs: seq<Event>, j: nat, d: Device)
    requires VerifiedAt(judge, evs, j, d) && Known(Run(judge, evs[..j]).rows, d).Some?
    ensures KeyOf(evs[j].parsed) == Known(Run(judge, evs[..j]).rows, d)
  {
    var ev := evs[j];
    PinnedExact(judge, Run(judge, evs[..j]), d, ev.parsed, ev.readFails, ev.writeFails);
  }

  /** After a device's first verified outcome with its row in place, every later one, whatever lies
      between short of deleting the row, uses the same attestation key. */
  lemma SameKeyAfterFirst(judge: Judge, evs: seq<Event>, i: nat, j: nat, d: Device)
    requires i < j && VerifiedAt(judge, evs, i, d) && VerifiedAt(judge, evs, j, d) && d in Run(judge, evs[..i]).rows
    requires forall k :: i < k < j ==> evs[k] != RowDeleted(d)
    ensures KeyOf(evs[i].parsed) == KeyOf(evs[j].parsed) && KeyOf(evs[i].parsed).Some?
  {
    KnownAfter(judge, evs, i, d);
    PinKeptOver(judge, evs, i + 1, j, d);
    KnownBefore(judge, evs, j, d);
  }

  // ---------- the row is needed ----------

  /** A quote over PCRs 0 and 7, both sent empty, answering `nonce`. */
  function PlainQuote(c: Crypto, nonce: seq<byte>): Q.QuoteAttest {
    Q.QuoteAttest([], nonce, Q.ClockInfo(0, 0, 0, true), 0, [0, 7], c.sha256([]))
  }

  function PlainEvidence(c: Crypto, key: seq<byte>, nonce: seq<byte>, signature: seq<byte>): E.Evidence {
    E.Tpm2Quote(Q.Encoded(PlainQuote(c, nonce)), signature, key, [E.Pcr(0, []), E.Pcr(7, [])], nonce)
  }

  /** Small enough to encode, and signed with the key it names. */
  predicate Presentable(c: Crypto, key: seq<byte>, nonce: seq<byte>, signature: seq<byte>) {
    && |c.sha256([])| == Q.DIGEST_LEN && |nonce| <= 32 && |key| < BLOB_LIMIT && |signature| < BLOB_LIMIT
    && c.verifies(key, Q.Encoded(PlainQuote(c, nonce)), signature)
  }

  lemma PlainQuoteReads(c: Crypto, nonce: seq<byte>)
    requires |c.sha256([])| == Q.DIGEST_LEN && |nonce| <= 32
    ensures Q.Parsing(Q.Encoded(PlainQuote(c, nonce))) == Some(PlainQuote(c, nonce))
  {
    Q.RoundTripExact(PlainQuote(c, nonce));
  }

  lemma PlainQuoteSmall(c: Crypto, nonce: seq<byte>)
    requires |c.sha256([])| == Q.DIGEST_LEN && |nonce| <= 32
    ensures |Q.Encoded(PlainQuote(c, nonce))| < BLOB_LIMIT
  {
    var ps: seq<u32> := [0, 7];
    assert ps[..1] == [0] && [0][..0] == [];
    assert Q.Width(ps) == 3;
  }

  lemma PlainHashed(pcrs: seq<E.Pcr>)
    requires pcrs == [E.Pcr(0, []), E.Pcr(7, [])]
    ensures Hashed([0, 7], pcrs) == Some([])
  {
    var none: seq<u32>, one: seq<u32>, both: seq<u32> := [], [0], [0, 7];
    assert one[..0] == none && both[..1] == one;
    assert Sent(pcrs, 0) == Some([]);
    assert pcrs[1..] == [E.Pcr(7, [])];
    assert Sent(pcrs, 7) == Some([]);
    var nothing: seq<byte> := [];
    assert nothing + nothing == nothing;
    assert Hashed(one, pcrs) == Some(nothing);
  }

  lemma PlainMatches(c: Crypto, e: E.Evidence, q: Q.QuoteAttest, nonce: seq<byte>)
    requires e.Tpm2Quote? && e.pcrs == [E.Pcr(0, []), E.Pcr(7, [])] && q == PlainQuote(c, nonce)
    requires c.verifies(e.akPublic, e.quote, e.signature)
    ensures Matches(c, e, q, nonce, DEFAULT_POLICY)
  {
    PlainHashed(e.pcrs);
  }

  lemma PlainConvinces(c: Crypto, key: seq<byte>, nonce: seq<byte>, signature: seq<byte>)
    requires Presentable(c, key, nonce, signature)
    ensures Convincing(c, PlainEvidence(c, key, nonce, signature), nonce, DEFAULT_POLICY)
  {
    PlainQuoteReads(c, nonce);
    PlainMatches(c, PlainEvidence(c, key, nonce, signature), PlainQuote(c, nonce), nonce);
  }

  /** Sent over the wire, that evidence is what the control plane decodes. */
  lemma PlainParses(c: Crypto, key: seq<byte>, nonce: seq<byte>, signature: seq<byte>)
    requires Presentable(c, key, nonce, signature)
    ensures var e := PlainEvidence(c, key, nonce, signature); E.Parsing(E.TPM2_QUOTE, E.Encoded(e).1) == Ok(e)
  {
    PlainQuoteSmall(c, nonce);
    E.RoundTripExact(PlainEvidence(c, key, nonce, signature));
  }

  /** However the run goes on, short of deleting the row, verified outcomes of `d` use `key`. */
  ghost predicate PinnedAfter(judge: Judge, evs: seq<Event>, d: Device, key: Option<seq<byte>>) {
    forall more, k :: RowDeleted(d) !in more && |evs| <= k && VerifiedAt(judge, evs + more, k, d) ==>
                        KeyOf((evs + more)[k].parsed) == key
  }

  lemma RowPins(judge: Judge, evs: seq<Event>, d: Device, more: seq<Event>, k: nat)
    requires evs != [] && VerifiedAt(judge, evs, |evs| - 1, d) && d in Run(judge, evs[..|evs| - 1]).rows
    requires RowDeleted(d) !in more && |evs| <= k && VerifiedAt(judge, evs + more, k, d)
    ensures KeyOf((evs + more)[k].parsed) == KeyOf(evs[|evs| - 1].parsed)
  {
    var all, i := evs + more, |evs| - 1;
    assert all[..i] == evs[..i] && all[i] == evs[i];
    forall j | i < j < k ensures all[j] != RowDeleted(d) { assert all[j] == more[j - |evs|]; }
    SameKeyAfterFirst(judge, all, i, k, d);
  }

  lemma RowlessStays(judge: Judge, evs: seq<Event>, ev: Event, d: Device)
    requires d !in Run(judge, evs).rows && ev != RowAdded(d)
    ensures d !in Run(judge, evs + [ev]).rows
  {
    RunAppend(judge, evs, ev);
  }

  /** One more challenge, answered. */
  function Asked(d: Device, nonce: seq<byte>, e: E.Evidence): seq<Event> {
    [Issue(d, nonce), Submit(d, Ok(e), false, false)]
  }

  /** With no row, a convincing quote verifies whatever key it names. */
  lemma RowlessVerifies(judge: Judge, evs: seq<Event>, d: Device, nonce: seq<byte>, e: E.Evidence)
    requires d !in Run(judge, evs).rows && e.Tpm2Quote? && judge(e, nonce)
    ensures VerifiedAt(judge, evs + Asked(d, nonce, e), |evs| + 1, d)
  {
    var all := evs + Asked(d, nonce, e);
    assert all[..|evs| + 1] == evs + [Issue(d, nonce)];
    RunAppend(judge, evs, Issue(d, nonce));
  }

  /** As long as a quote naming another key could convince at all, a verified outcome binds every later
      one to its key exactly when the device has a row at that moment. */
  lemma PinnedAfterExact(judge: Judge, evs: seq<Event>, d: Device, nonce: seq<byte>, other: E.Evidence)
    requires evs != [] && VerifiedAt(judge, evs, |evs| - 1, d)
    requires other.Tpm2Quote? && judge(other, nonce) && KeyOf(evs[|evs| - 1].parsed) != Some(other.akPublic)
    ensures PinnedAfter(judge, evs, d, KeyOf(evs[|evs| - 1].parsed)) <==> d in Run(judge, evs[..|evs| - 1]).rows
  {
    if d in Run(judge, evs[..|evs| - 1]).rows {
      forall more, k | RowDeleted(d) !in more && |evs| <= k && VerifiedAt(judge, evs + more, k, d)
        ensures KeyOf((evs + more)[k].parsed) == KeyOf(evs[|evs| - 1].parsed)
      {
        RowPins(judge, evs, d, more, k);
      }
    } else {
      var before, last, more := evs[..|evs| - 1], evs[|evs| - 1], Asked(d, nonce, other);
      assert evs == before + [last];
      RowlessStays(judge, before, last, d);
      RowlessVerifies(judge, evs, d, nonce, other);
      assert RowDeleted(d) !in more && (evs + more)[|evs| + 1] == more[1];
    }
  }

  /** A run in which a device without a row gets two verified outcomes under different keys. */
  lemma TwoKeysVerify(judge: Judge, d: Device, m: seq<byte>, first: E.Evidence, n: seq<byte>, second: E.Evidence)
    requires first.Tpm2Quote? && judge(first, m) && second.Tpm2Quote? && judge(second, n)
    ensures var evs := Asked(d, m, first) + Asked(d, n, second);
            && VerifiedAt(judge, evs, 1, d) && VerifiedAt(judge, evs, 3, d) && d !in Run(judge, evs[..1]).rows
            && evs[1].parsed == Ok(first) && evs[3].parsed == Ok(second) && (m != n ==> FreshNonces(evs))
  {
    var none: seq<Event> := [];
    var half := Asked(d, m, first);
    var evs := half + Asked(d, n, second);
    assert half == none + half == none + [half[0]] + [half[1]];
    RowlessStays(judge, none, half[0], d);
    RowlessStays(judge, none + [half[0]], half[1], d);
    RowlessVerifies(judge, none, d, m, first);
    RowlessVerifies(judge, half, d, n, second);
    assert evs[..1] == half[..1] == none + [half[0]] && evs[1] == half[1];
  }

  /** Evidence for any key and nonce, as bytes that decode to it and convince. */
  lemma WireEvidence(c: Crypto, key: seq<byte>, nonce: seq<byte>) returns (e: E.Evidence, bytes: seq<byte>)
    requires Presentable(c, key, nonce, [])
    ensures E.Parsing(E.TPM2_QUOTE, bytes) == Ok(e)
    ensures e.Tpm2Quote? && e.akPublic == key && QuoteJudge(c)(e, nonce)
  {
    e := PlainEvidence(c, key, nonce, []);
    bytes := E.Encoded(e).1;
    PlainParses(c, key, nonce, []);
    PlainConvinces(c, key, nonce, []);
  }

  lemma AnyKeyPresentable() returns (c: Crypto)
    ensures forall key: seq<byte>, nonce: seq<byte> :: |key| <= 1 && |nonce| <= 1 ==> Presentable(c, key, nonce, [])
  {
    var digest: seq<byte> := seq(Q.DIGEST_LEN, _ => 0);
    c := Crypto(_ => digest, (_, _, _) => true);
  }

  /** Such evidence exists on the wire, here with a checker that accepts every signature: the row
      condition cannot be dropped. */
  lemma RowNeeded(d: Device) returns (c: Crypto, evs: seq<Event>, b1: seq<byte>, b2: seq<byte>)
    ensures VerifiedAt(QuoteJudge(c), evs, 1, d) && VerifiedAt(QuoteJudge(c), evs, 3, d)
    ensures evs[1].parsed == E.Parsing(E.TPM2_QUOTE, b1) && evs[3].parsed == E.Parsing(E.TPM2_QUOTE, b2)
    ensures KeyOf(evs[1].parsed) != KeyOf(evs[3].parsed) && FreshNonces(evs)
  {
    c := AnyKeyPresentable();
    var m: seq<byte>, n: seq<byte>, first, second := [3], [4], E.NoEvidence, E.NoEvidence;
    first, b1 := WireEvidence(c, [1], m);
    second, b2 := WireEvidence(c, [2], n);
    evs := Asked(d, m, first) + Asked(d, n, second);
    TwoKeysVerify(QuoteJudge(c), d, m, first, n, second);
  }
}
