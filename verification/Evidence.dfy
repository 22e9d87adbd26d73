/** The attestation evidence blob: length-prefixed fields, PCR values and the nonce. */
module Evidence {
  import opened Wrappers
  import opened Bytes
  import opened Cursor

  datatype AttestError = Encoding | UnknownFormat(format: string) | Signature | Malformed

  datatype Pcr = Pcr(index: u32, value: seq<byte>)

  datatype Evidence =
    | Tpm2Quote(quote: seq<byte>, signature: seq<byte>, akPublic: seq<byte>, pcrs: seq<Pcr>, nonce: seq<byte>)
    | NoEvidence

  const TPM2_QUOTE := "tpm2-quote"
  const NONE := "none"

  // ---------- what the bytes mean ----------

  function ReadPcr(b: seq<byte>): Read<Pcr> {
    var index :- ReadNumber(b, 4);
    var value :- ReadBlob(index.1);
    PowersOf256();
    Some((Pcr(index.0, value.0), value.1))
  }

  function ReadPcrs(b: seq<byte>, count: nat): Read<seq<Pcr>> {
    if count == 0 then Some(([], b)) else
    var first :- ReadPcr(b);
    var others :- ReadPcrs(first.1, count - 1);
    Some(([first.0] + others.0, others.1))
  }

  function ReadQuote(b: seq<byte>): Option<Evidence> {
    var quote :- ReadBlob(b);
    var signature :- ReadBlob(quote.1);
    var ak :- ReadBlob(signature.1);
    var count :- ReadNumber(ak.1, 2);
    var pcrs :- ReadPcrs(count.1, count.0);
    var nonce :- ReadBlob(pcrs.1);
    if nonce.1 != [] then None else Some(Tpm2Quote(quote.0, signature.0, ak.0, pcrs.0, nonce.0))
  }

  function Parsing(format: string, b: seq<byte>): Result<Evidence, AttestError> {
    if format == TPM2_QUOTE then
      match ReadQuote(b)
      case Some(e) => Ok(e)
      case None => Err(Encoding)
    else if format == NONE then Ok(NoEvidence)
    else Err(UnknownFormat(format))
  }

  function EncodePcr(p: Pcr): seq<byte> {
    ToBe(p.index, 4) + EncodeBlob(p.value)
  }

  function EncodePcrs(ps: seq<Pcr>): seq<byte> {
    if ps == [] then [] else EncodePcr(ps[0]) + EncodePcrs(ps[1..])
  }

  function Encoded(e: Evidence): (string, seq<byte>) {
    match e
    case NoEvidence => (NONE, [])
    case Tpm2Quote(quote, signature, ak, pcrs, nonce) =>
      (TPM2_QUOTE, EncodeBlob(quote) + (EncodeBlob(signature) + (EncodeBlob(ak) +
                   (ToBe(|pcrs|, 2) + (EncodePcrs(pcrs) + EncodeBlob(nonce))))))
  }

  // ---------- round trips ----------

  /** Every length the encoder cuts to 16 bits fits in 16 bits. */
  predicate Encodable(e: Evidence) {
    e.Tpm2Quote? ==>
      && |e.quote| < BLOB_LIMIT && |e.signature| < BLOB_LIMIT && |e.akPublic| < BLOB_LIMIT && |e.nonce| < BLOB_LIMIT
      && |e.pcrs| < BLOB_LIMIT && forall i :: 0 <= i < |e.pcrs| ==> |e.pcrs[i].value| < BLOB_LIMIT
  }

  lemma PcrRoundTrip(p: Pcr, rest: seq<byte>)
    requires |p.value| < BLOB_LIMIT
    ensures ReadPcr(EncodePcr(p) + rest) == Some((p, rest))
  {
    PowersOf256();
    assert EncodePcr(p) + rest == ToBe(p.index, 4) + (EncodeBlob(p.value) + rest);
    NumberRoundTrip(p.index, 4, EncodeBlob(p.value) + rest);
    BlobRoundTrip(p.value, rest);
  }

  lemma {:induction false} PcrsRoundTrip(ps: seq<Pcr>, rest: seq<byte>)
    requires forall i :: 0 <= i < |ps| ==> |ps[i].value| < BLOB_LIMIT
    ensures ReadPcrs(EncodePcrs(ps) + rest, |ps|) == Some((ps, rest))
  {
    if ps == [] {
      assert EncodePcrs(ps) + rest == rest;
    } else {
      var tail := EncodePcrs(ps[1..]) + rest;
      assert EncodePcrs(ps) + rest == EncodePcr(ps[0]) + tail;
      PcrRoundTrip(ps[0], tail);
      PcrsRoundTrip(ps[1..], rest);
      assert [ps[0]] + ps[1..] == ps;
    }
  }

  lemma QuoteRoundTrip(e: Evidence)
    requires e.Tpm2Quote? && Encodable(e)
    ensures ReadQuote(Encoded(e).1) == Some(e)
  {
    PowersOf256();
    var t5 := EncodeBlob(e.nonce);
    var t4 := EncodePcrs(e.pcrs) + t5;
    var t3 := ToBe(|e.pcrs|, 2) + t4;
    var t2 := EncodeBlob(e.akPublic) + t3;
    var t1 := EncodeBlob(e.signature) + t2;
    BlobRoundTrip(e.quote, t1);
    BlobRoundTrip(e.signature, t2);
    BlobRoundTrip(e.akPublic, t3);
    NumberRoundTrip(|e.pcrs|, 2, t4);
    PcrsRoundTrip(e.pcrs, t5);
    BlobRoundTrip(e.nonce, []);
    assert t5 + [] == t5;
  }

  lemma PcrCanonical(b: seq<byte>)
    requires ReadPcr(b).Some?
    ensures var (p, rest) := ReadPcr(b).value; |p.value| < BLOB_LIMIT && b == EncodePcr(p) + rest
  {
    var (index, b1) := ReadNumber(b, 4).value;
    var (value, rest) := ReadBlob(b1).value;
    NumberCanonical(b, 4);
    BlobCanonical(b1);
    assert b == ToBe(index, 4) + (EncodeBlob(value) + rest) == (ToBe(index, 4) + EncodeBlob(value)) + rest;
  }

  lemma Associates(a: seq<byte>, b: seq<byte>, c: seq<byte>)
    ensures a + (b + c) == (a + b) + c
  {
  }

  lemma {:induction false} PcrsCanonical(b: seq<byte>, count: nat)
    requires ReadPcrs(b, count).Some?
    ensures var (ps, rest) := ReadPcrs(b, count).value;
            && |ps| == count && b == EncodePcrs(ps) + rest
            && forall i :: 0 <= i < |ps| ==> |ps[i].value| < BLOB_LIMIT
    decreases count
  {
    var (ps, rest) := ReadPcrs(b, count).value;
    if count == 0 {
      assert b == [] + rest;
    } else {
      var (p, b1) := ReadPcr(b).value;
      PcrCanonical(b);
      PcrsCanonical(b1, count - 1);
      var qs := ReadPcrs(b1, count - 1).value.0;
      assert ps == [p] + qs && ps[1..] == qs && ps[0] == p;
      Associates(EncodePcr(p), EncodePcrs(qs), rest);
    }
  }

  lemma QuoteCanonical(b: seq<byte>)
    requires ReadQuote(b).Some?
    ensures Encoded(ReadQuote(b).value) == (TPM2_QUOTE, b) && Encodable(ReadQuote(b).value)
  {
    PowersOf256();
    var (quote, b1) := ReadBlob(b).value;
    var (signature, b2) := ReadBlob(b1).value;
    var (ak, b3) := ReadBlob(b2).value;
    var (count, b4) := ReadNumber(b3, 2).value;
    var (pcrs, b5) := ReadPcrs(b4, count).value;
    var (nonce, b6) := ReadBlob(b5).value;
    BlobCanonical(b);
    BlobCanonical(b1);
    BlobCanonical(b2);
    NumberCanonical(b3, 2);
    PcrsCanonical(b4, count);
    BlobCanonical(b5);
    assert b5 == EncodeBlob(nonce) + [] == EncodeBlob(nonce);
  }

  /** Reading back gives the evidence exactly when no length was cut. */
  lemma RoundTripExact(e: Evidence)
    ensures var (format, b) := Encoded(e); Parsing(format, b) == Ok(e) <==> Encodable(e)
  {
    if e.Tpm2Quote? {
      if Encodable(e) { QuoteRoundTrip(e); }
      if ReadQuote(Encoded(e).1).Some? { QuoteCanonical(Encoded(e).1); }
    }
  }

  /** Every accepted quote blob is byte for byte the encoding of what was read from it. */
  lemma AcceptedCanonical(b: seq<byte>)
    requires Parsing(TPM2_QUOTE, b).Ok?
    ensures Encoded(Parsing(TPM2_QUOTE, b).value) == (TPM2_QUOTE, b)
  {
    QuoteCanonical(b);
  }

  // ---------- the code ----------

  lemma {:induction false} ReadPcrsStep(b: seq<byte>, count: nat, done: seq<Pcr>, rem: seq<byte>, left: nat)
    requires left > 0
    requires ReadPcrs(b, count) == Appended(done, ReadPcrs(rem, left))
    ensures match ReadPcr(rem)
            case None => ReadPcrs(b, count) == None
            case Some(p) => ReadPcrs(b, count) == Appended(done + [p.0], ReadPcrs(p.1, left - 1))
  {
    if ReadPcr(rem).Some? {
      var (p, r) := ReadPcr(rem).value;
      if ReadPcrs(r, left - 1).Some? {
        var qs := ReadPcrs(r, left - 1).value.0;
        assert done + ([p] + qs) == (done + [p]) + qs;
      }
    }
  }

  method ParsePcr(r: Reader) returns (p: Option<Pcr>)
    requires r.Valid()
    modifies r
    ensures r.Valid()
    ensures match ReadPcr(old(r.Remaining()))
            case Some(q) => p == Some(q.0) && r.Remaining() == q.1
            case None => p == None
  {
    var index := r.Number(4);
    if index == None { return None; }
    var value := r.Blob();
    if value == None { return None; }
    PowersOf256();
    p := Some(Pcr(index.value, value.value));
  }

  method ParsePcrs(r: Reader, count: nat) returns (pcrs: Option<seq<Pcr>>)
    requires r.Valid()
    modifies r
    ensures r.Valid()
    ensures match ReadPcrs(old(r.Remaining()), count)
            case Some(p) => pcrs == Some(p.0) && r.Remaining() == p.1
            case None => pcrs == None
  {
    var done: seq<Pcr> := [];
    ghost var start := r.Remaining();
    AppendNothing(ReadPcrs(start, count));
    for i := 0 to count
      invariant r.Valid() && ReadPcrs(start, count) == Appended(done, ReadPcrs(r.Remaining(), count - i))
    {
      ReadPcrsStep(start, count, done, r.Remaining(), count - i);
      var p := ParsePcr(r);
      if p == None { return None; }
      done := done + [p.value];
    }
    assert done + [] == done;
    pcrs := Some(done);
  }

  method ParseQuote(bytes: seq<byte>) returns (e: Option<Evidence>)
    ensures e == ReadQuote(bytes)
  {
    var r := new Reader(bytes);
    var quote := r.Blob();
    if quote == None { return None; }
    var signature := r.Blob();
    if signature == None { return None; }
    var ak := r.Blob();
    if ak == None { return None; }
    var count := r.Number(2);
    if count == None { return None; }
    var pcrs := ParsePcrs(r, count.value);
    if pcrs == None { return None; }
    var nonce := r.Blob();
    if nonce == None { return None; }
    assert r.Remaining() == [] <==> r.pos == |r.b|;
    if r.pos != |r.b| { return None; }
    e := Some(Tpm2Quote(quote.value, signature.value, ak.value, pcrs.value, nonce.value));
  }

  method Parse(format: string, bytes: seq<byte>) returns (e: Result<Evidence, AttestError>)
    ensures e == Parsing(format, bytes)
  {
    if format == TPM2_QUOTE {
      var quote := ParseQuote(bytes);
      e := if quote == None then Err(Encoding) else Ok(quote.value);
    } else if format == NONE {
      e := Ok(NoEvidence);
    } else {
      e := Err(UnknownFormat(format));
    }
  }

  lemma {:induction false} EncodePcrsEnd(ps: seq<Pcr>, p: Pcr)
    ensures EncodePcrs(ps + [p]) == EncodePcrs(ps) + EncodePcr(p)
  {
    if ps == [] {
      assert [p][1..] == [];
    } else {
      EncodePcrsEnd(ps[1..], p);
      assert (ps + [p])[1..] == ps[1..] + [p];
    }
  }

  lemma Regroup(a: seq<byte>, b: seq<byte>, c: seq<byte>, d: seq<byte>, e: seq<byte>, f: seq<byte>)
    ensures a + b + c + d + e + f == a + (b + (c + (d + (e + f))))
  {
    assert a + b + c + d + e + f == a + b + c + d + (e + f);
    assert a + b + c + d + (e + f) == a + b + c + (d + (e + f));
    assert a + b + c + (d + (e + f)) == a + b + (c + (d + (e + f)));
  }

  method Encode(e: Evidence) returns (format: string, out: seq<byte>)
    ensures (format, out) == Encoded(e)
  {
    if e.NoEvidence? { return NONE, []; }
    out := EncodeBlob(e.quote) + EncodeBlob(e.signature) + EncodeBlob(e.akPublic) + ToBe(|e.pcrs|, 2);
    ghost var head := out;
    for i := 0 to |e.pcrs|
      invariant out == head + EncodePcrs(e.pcrs[..i])
    {
      assert e.pcrs[..i + 1] == e.pcrs[..i] + [e.pcrs[i]];
      EncodePcrsEnd(e.pcrs[..i], e.pcrs[i]);
      ghost var before := out;
      out := out + ToBe(e.pcrs[i].index, 4) + EncodeBlob(e.pcrs[i].value);
      assert out == before + EncodePcr(e.pcrs[i]);
    }
    assert e.pcrs[..|e.pcrs|] == e.pcrs;
    out := out + EncodeBlob(e.nonce);
    Regroup(EncodeBlob(e.quote), EncodeBlob(e.signature), EncodeBlob(e.akPublic), ToBe(|e.pcrs|, 2),
            EncodePcrs(e.pcrs), EncodeBlob(e.nonce));
    format := TPM2_QUOTE;
  }
}
