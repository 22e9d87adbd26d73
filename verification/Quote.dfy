/** The TPM quote structure (TPM 2.0 Library Part 2, revision 1.59, section 10.12): parser, encoder
    and the PCR bitmap between them. */
module Quote {
  import opened Wrappers
  import opened Bytes
  import opened Cursor
  import opened Bits
  import Net

  const TPM_GENERATED_VALUE: u32 := 0xFF54_4347
  const TPM_ST_ATTEST_QUOTE: u16 := 0x8018
  const TPM_ALG_SHA256: u16 := 0x000B
  const DIGEST_LEN := 32
  const MAX_SELECTIONS := 8
  const MAX_WIDTH := 8

  datatype ClockInfo = ClockInfo(clockMs: u64, resetCount: u32, restartCount: u32, safe: bool)

  datatype QuoteAttest = QuoteAttest(qualifiedSigner: seq<byte>, extraData: seq<byte>, clock: ClockInfo,
                                     firmwareVersion: u64, selectedPcrs: seq<u32>, pcrDigest: seq<byte>)

  // ---------- bits ----------

  function OrBit(b: byte, i: nat): byte
    requires i < 8
  {
    assert Net.Pow2(8) == 256 by {
      assert Net.Pow2(4) == 16 && Net.Pow2(6) == 4 * Net.Pow2(4) && Net.Pow2(8) == 4 * Net.Pow2(6);
    }
    SetBitFits(b, i, 8);
    SetBit(b, i)
  }

  // ---------- bitmaps ----------

  predicate BitAt(m: seq<byte>, p: nat)
    requires p < 8 * |m|
  {
    HasBit(m[p / 8], p % 8)
  }

  /** The set positions below `n`, ascending. */
  function Scan(m: seq<byte>, n: nat): seq<u32>
    requires n <= 8 * |m| && |m| <= MAX_WIDTH
  {
    if n == 0 then [] else Scan(m, n - 1) + if BitAt(m, n - 1) then [n - 1] else []
  }

  function Positions(m: seq<byte>): seq<u32>
    requires |m| <= MAX_WIDTH
  {
    Scan(m, 8 * |m|)
  }

  function Width(ps: seq<u32>): (w: nat)
    ensures w >= 3 && forall i :: 0 <= i < |ps| ==> ps[i] < 8 * w
  {
    if ps == [] then 3
    else
      var w := Width(ps[..|ps| - 1]);
      var own := ps[|ps| - 1] / 8 + 1;
      if own > w then own else w
  }

  function Mark(m: seq<byte>, p: nat): (r: seq<byte>)
    requires p < 8 * |m|
    ensures |r| == |m|
  {
    m[p / 8 := OrBit(m[p / 8], p % 8)]
  }

  function Bitmap(ps: seq<u32>, w: nat): (r: seq<byte>)
    requires forall i :: 0 <= i < |ps| ==> ps[i] < 8 * w
    ensures |r| == w
  {
    if ps == [] then seq(w, _ => 0) else Mark(Bitmap(ps[..|ps| - 1], w), ps[|ps| - 1])
  }

  lemma MarkExact(m: seq<byte>, p: nat, q: nat)
    requires p < 8 * |m| && q < 8 * |m|
    ensures BitAt(Mark(m, p), q) <==> p == q || BitAt(m, q)
  {
    if p / 8 == q / 8 { SetBitExact(m[p / 8], p % 8, q % 8); }
  }

  /** Building a bitmap from positions sets exactly those bits. */
  lemma {:induction false} BitmapExact(ps: seq<u32>, w: nat, q: nat)
    requires (forall i :: 0 <= i < |ps| ==> ps[i] < 8 * w) && q < 8 * w
    ensures BitAt(Bitmap(ps, w), q) <==> q in ps
  {
    if ps == [] {
      ZeroHasNoBit(q % 8);
    } else {
      BitmapExact(ps[..|ps| - 1], w, q);
      MarkExact(Bitmap(ps[..|ps| - 1], w), ps[|ps| - 1], q);
      assert ps == ps[..|ps| - 1] + [ps[|ps| - 1]];
    }
  }

  predicate Ascending(s: seq<u32>) {
    forall i, j :: 0 <= i < j < |s| ==> s[i] < s[j]
  }

  lemma {:induction false} ScanExact(m: seq<byte>, n: nat)
    requires n <= 8 * |m| && |m| <= MAX_WIDTH
    ensures Ascending(Scan(m, n))
    ensures forall p: nat :: p in Scan(m, n) <==> p < n && BitAt(m, p)
  {
    if n > 0 {
      ScanExact(m, n - 1);
      var before := Scan(m, n - 1);
      assert forall i :: 0 <= i < |before| ==> before[i] in before;
    }
  }

  lemma TailMembers(s: seq<u32>, p: u32)
    requires Ascending(s) && s != []
    ensures p in s[1..] <==> p in s && p != s[0]
  {
    assert s == [s[0]] + s[1..];
  }

  lemma SameHead(s: seq<u32>, t: seq<u32>)
    requires Ascending(s) && Ascending(t) && s != [] && t != [] && s[0] in t && t[0] in s
    ensures s[0] == t[0]
  {
    var i :| 0 <= i < |t| && t[i] == s[0];
    var j :| 0 <= j < |s| && s[j] == t[0];
  }

  /** An ascending list is determined by its members. */
  lemma {:induction false} AscendingUnique(s: seq<u32>, t: seq<u32>)
    requires Ascending(s) && Ascending(t) && forall p :: p in s <==> p in t
    ensures s == t
  {
    if s != [] { assert s[0] in s; }
    if t != [] { assert t[0] in t; }
    if s != [] && t != [] {
      SameHead(s, t);
      forall p ensures p in s[1..] <==> p in t[1..] {
        TailMembers(s, p);
        TailMembers(t, p);
      }
      AscendingUnique(s[1..], t[1..]);
      assert s == [s[0]] + s[1..] && t == [t[0]] + t[1..];
    }
  }

  // ---------- sorting ----------

  function Place(s: seq<u32>, x: u32): (r: seq<u32>)
    ensures multiset(r) == multiset(s) + multiset{x}
  {
    if s == [] then [x]
    else if x <= s[0] then [x] + s
    else
      assert s == [s[0]] + s[1..];
      [s[0]] + Place(s[1..], x)
  }

  function Sort(s: seq<u32>): (r: seq<u32>)
    ensures multiset(r) == multiset(s)
  {
    if s == [] then [] else
    assert s == s[..|s| - 1] + [s[|s| - 1]];
    Place(Sort(s[..|s| - 1]), s[|s| - 1])
  }

  predicate Sorted(s: seq<u32>) {
    forall i, j :: 0 <= i < j < |s| ==> s[i] <= s[j]
  }

  lemma {:induction false} PlaceSorted(s: seq<u32>, x: u32)
    requires Sorted(s)
    ensures Sorted(Place(s, x))
  {
    if s != [] && x > s[0] {
      PlaceSorted(s[1..], x);
      forall k | 0 <= k < |Place(s[1..], x)| ensures s[0] <= Place(s[1..], x)[k] {
        assert Place(s[1..], x)[k] in multiset(Place(s[1..], x));
        assert Place(s[1..], x)[k] in s[1..] || Place(s[1..], x)[k] == x;
      }
    }
  }

  lemma {:induction false} SortSorts(s: seq<u32>)
    ensures Sorted(Sort(s))
  {
    if s != [] {
      SortSorts(s[..|s| - 1]);
      PlaceSorted(Sort(s[..|s| - 1]), s[|s| - 1]);
    }
  }

  lemma {:induction false} PlaceLast(s: seq<u32>, x: u32)
    requires forall i :: 0 <= i < |s| ==> s[i] < x
    ensures Place(s, x) == s + [x]
  {
    if s != [] {
      PlaceLast(s[1..], x);
      assert s == [s[0]] + s[1..];
    }
  }

  lemma {:induction false} SortAscending(s: seq<u32>)
    requires Ascending(s)
    ensures Sort(s) == s
  {
    if s != [] {
      SortAscending(s[..|s| - 1]);
      PlaceLast(s[..|s| - 1], s[|s| - 1]);
      assert s == s[..|s| - 1] + [s[|s| - 1]];
    }
  }

  // ---------- what the bytes mean ----------

  function ReadSelection(b: seq<byte>): Read<seq<u32>> {
    var alg :- ReadNumber(b, 2);
    var width :- ReadNumber(alg.1, 1);
    if width.0 > MAX_WIDTH then None else
    var bitmap :- TakeBytes(width.1, width.0);
    Some((if alg.0 == TPM_ALG_SHA256 then Positions(bitmap.0) else [], bitmap.1))
  }

  /** Other banks are read and skipped; a bank given twice contributes twice. */
  function ReadSelections(b: seq<byte>, count: nat): Read<seq<u32>> {
    if count == 0 then Some(([], b)) else
    var first :- ReadSelection(b);
    var others :- ReadSelections(first.1, count - 1);
    Some((first.0 + others.0, others.1))
  }

  function ReadClock(b: seq<byte>): Read<ClockInfo> {
    var clock :- ReadNumber(b, 8);
    var resets :- ReadNumber(clock.1, 4);
    var restarts :- ReadNumber(resets.1, 4);
    var safe :- ReadNumber(restarts.1, 1);
    PowersOf256();
    Some((ClockInfo(clock.0, resets.0, restarts.0, safe.0 != 0), safe.1))
  }

  /** The PCRs quoted and the digest over them. */
  datatype QuoteInfo = QuoteInfo(pcrs: seq<u32>, digest: seq<byte>)

  function ReadInfo(b: seq<byte>): Option<QuoteInfo> {
    var count :- ReadNumber(b, 4);
    if count.0 > MAX_SELECTIONS then None else
    var pcrs :- ReadSelections(count.1, count.0);
    var digest :- ReadBlob(pcrs.1);
    if |digest.0| != DIGEST_LEN then None else Some(QuoteInfo(Sort(pcrs.0), digest.0))
  }

  /** Magic and type, then the signer's name and the caller's nonce. */
  datatype Head = Head(signer: seq<byte>, extra: seq<byte>)

  function ReadHead(b: seq<byte>): Read<Head> {
    var magic :- ReadNumber(b, 4);
    if magic.0 != TPM_GENERATED_VALUE then None else
    var kind :- ReadNumber(magic.1, 2);
    if kind.0 != TPM_ST_ATTEST_QUOTE then None else
    var signer :- ReadBlob(kind.1);
    var extra :- ReadBlob(signer.1);
    Some((Head(signer.0, extra.0), extra.1))
  }

  function Parsing(b: seq<byte>): Option<QuoteAttest> {
    var head :- ReadHead(b);
    var clock :- ReadClock(head.1);
    var firmware :- ReadU64(clock.1);
    var info :- ReadInfo(firmware.1);
    Some(QuoteAttest(head.0.signer, head.0.extra, clock.0, firmware.0, info.pcrs, info.digest))
  }

  function EncodeClock(c: ClockInfo): seq<byte> {
    ToBe(c.clockMs, 8) + (ToBe(c.resetCount, 4) + (ToBe(c.restartCount, 4) + ToBe(if c.safe then 1 else 0, 1)))
  }

  /** One selection, of the SHA-256 bank; the width byte is cut to eight bits. */
  function EncodeSelection(ps: seq<u32>): seq<byte> {
    ToBe(TPM_ALG_SHA256, 2) + (ToBe(Width(ps), 1) + Bitmap(ps, Width(ps)))
  }

  function EncodeInfo(i: QuoteInfo): seq<byte> {
    ToBe(1, 4) + (EncodeSelection(i.pcrs) + EncodeBlob(i.digest))
  }

  function Encoded(q: QuoteAttest): seq<byte> {
    ToBe(TPM_GENERATED_VALUE, 4) + (ToBe(TPM_ST_ATTEST_QUOTE, 2) + (EncodeBlob(q.qualifiedSigner) +
    (EncodeBlob(q.extraData) + (EncodeClock(q.clock) + (ToBe(q.firmwareVersion, 8) +
     EncodeInfo(QuoteInfo(q.selectedPcrs, q.pcrDigest)))))))
  }

  // ---------- round trip ----------

  predicate Below64(ps: seq<u32>) {
    forall i :: 0 <= i < |ps| ==> ps[i] < 64
  }

  predicate Fits(q: QuoteAttest) {
    && |q.qualifiedSigner| < BLOB_LIMIT && |q.extraData| < BLOB_LIMIT
    && |q.pcrDigest| == DIGEST_LEN && Below64(q.selectedPcrs)
  }

  /** The members of `ps` in ascending order, each once. */
  function InOrder(ps: seq<u32>): seq<u32>
    requires Below64(ps)
  {
    WidthFits(ps);
    Positions(Bitmap(ps, Width(ps)))
  }

  lemma {:induction false} WidthFits(ps: seq<u32>)
    requires Below64(ps)
    ensures Width(ps) <= MAX_WIDTH
  {
    if ps != [] { WidthFits(ps[..|ps| - 1]); }
  }

  lemma InOrderExact(ps: seq<u32>)
    requires Below64(ps)
    ensures Ascending(InOrder(ps)) && forall p :: p in InOrder(ps) <==> p in ps
  {
    WidthFits(ps);
    var w := Width(ps);
    ScanExact(Bitmap(ps, w), 8 * w);
    forall p: u32 ensures p in InOrder(ps) <==> p in ps {
      if p < 8 * w { BitmapExact(ps, w, p); }
    }
  }

  lemma SelectionRoundTrip(ps: seq<u32>, rest: seq<byte>)
    requires Below64(ps)
    ensures ReadSelection(EncodeSelection(ps) + rest) == Some((InOrder(ps), rest))
  {
    PowersOf256();
    WidthFits(ps);
    var m := Bitmap(ps, Width(ps));
    var t1 := m + rest;
    var t0 := ToBe(Width(ps), 1) + t1;
    assert EncodeSelection(ps) + rest == ToBe(TPM_ALG_SHA256, 2) + t0;
    NumberRoundTrip(TPM_ALG_SHA256, 2, t0);
    NumberRoundTrip(Width(ps), 1, t1);
    assert t1[..|m|] == m && t1[|m|..] == rest;
  }

  lemma InfoRoundTrip(i: QuoteInfo)
    requires Below64(i.pcrs) && |i.digest| == DIGEST_LEN
    ensures ReadInfo(EncodeInfo(i)) == Some(QuoteInfo(InOrder(i.pcrs), i.digest))
  {
    PowersOf256();
    var t1 := EncodeBlob(i.digest);
    var t0 := EncodeSelection(i.pcrs) + t1;
    NumberRoundTrip(1, 4, t0);
    SelectionRoundTrip(i.pcrs, t1);
    assert ReadSelections(t0, 1) == Some((InOrder(i.pcrs), t1)) by {
      assert ReadSelections(t1, 0) == Some(([], t1));
      assert InOrder(i.pcrs) + [] == InOrder(i.pcrs);
    }
    BlobRoundTrip(i.digest, []);
    assert t1 + [] == t1;
    InOrderExact(i.pcrs);
    SortAscending(InOrder(i.pcrs));
  }

  lemma ClockRoundTrip(c: ClockInfo, rest: seq<byte>)
    ensures ReadClock(EncodeClock(c) + rest) == Some((c, rest))
  {
    PowersOf256();
    var safe := if c.safe then 1 else 0;
    var t2 := ToBe(safe, 1) + rest;
    var t1 := ToBe(c.restartCount, 4) + t2;
    var t0 := ToBe(c.resetCount, 4) + t1;
    assert EncodeClock(c) + rest == ToBe(c.clockMs, 8) + t0;
    NumberRoundTrip(c.clockMs, 8, t0);
    NumberRoundTrip(c.resetCount, 4, t1);
    NumberRoundTrip(c.restartCount, 4, t2);
    NumberRoundTrip(safe, 1, rest);
  }

  /** Whatever order and repetition the PCRs come in, reading back gives them ascending, each once,
      and everything else unchanged. */
  lemma EncodedParses(q: QuoteAttest)
    requires Fits(q)
    ensures Parsing(Encoded(q)) == Some(q.(selectedPcrs := InOrder(q.selectedPcrs)))
  {
    PowersOf256();
    var t5 := EncodeInfo(QuoteInfo(q.selectedPcrs, q.pcrDigest));
    var t4 := ToBe(q.firmwareVersion, 8) + t5;
    var t3 := EncodeClock(q.clock) + t4;
    var t2 := EncodeBlob(q.extraData) + t3;
    var t1 := EncodeBlob(q.qualifiedSigner) + t2;
    var t0 := ToBe(TPM_ST_ATTEST_QUOTE, 2) + t1;
    NumberRoundTrip(TPM_GENERATED_VALUE, 4, t0);
    NumberRoundTrip(TPM_ST_ATTEST_QUOTE, 2, t1);
    BlobRoundTrip(q.qualifiedSigner, t2);
    BlobRoundTrip(q.extraData, t3);
    ClockRoundTrip(q.clock, t4);
    NumberRoundTrip(q.firmwareVersion, 8, t5);
    InfoRoundTrip(QuoteInfo(q.selectedPcrs, q.pcrDigest));
  }

  lemma {:induction false} SelectionsBelow64(b: seq<byte>, count: nat)
    requires ReadSelections(b, count).Some?
    ensures Below64(ReadSelections(b, count).value.0)
    decreases count
  {
    if count > 0 {
      var (first, rest) := ReadSelection(b).value;
      SelectionsBelow64(rest, count - 1);
      var width := ReadNumber(ReadNumber(b, 2).value.1, 1).value;
      var m := TakeBytes(width.1, width.0).value.0;
      ScanExact(m, 8 * |m|);
      forall i | 0 <= i < |first| ensures first[i] < 64 { assert first[i] in first; }
    }
  }

  /** What a parse can return: fields that fit, PCRs below 64 in order. */
  lemma ParsedFits(b: seq<byte>)
    requires Parsing(b).Some?
    ensures Fits(Parsing(b).value) && Sorted(Parsing(b).value.selectedPcrs)
  {
    HeadFits(b);
    InfoFits(ReadU64(ReadClock(ReadHead(b).value.1).value.1).value.1);
  }

  lemma HeadFits(b: seq<byte>)
    requires ReadHead(b).Some?
    ensures |ReadHead(b).value.0.signer| < BLOB_LIMIT && |ReadHead(b).value.0.extra| < BLOB_LIMIT
  {
    var b1 := ReadNumber(ReadNumber(b, 4).value.1, 2).value.1;
    BlobCanonical(b1);
    BlobCanonical(ReadBlob(b1).value.1);
  }

  lemma InfoFits(b: seq<byte>)
    requires ReadInfo(b).Some?
    ensures Below64(ReadInfo(b).value.pcrs) && Sorted(ReadInfo(b).value.pcrs)
  {
    var (count, rest) := ReadNumber(b, 4).value;
    var (pcrs, _) := ReadSelections(rest, count).value;
    SelectionsBelow64(rest, count);
    SortSorts(pcrs);
    forall i | 0 <= i < |Sort(pcrs)| ensures Sort(pcrs)[i] < 64 {
      assert Sort(pcrs)[i] in multiset(Sort(pcrs));
      assert Sort(pcrs)[i] in pcrs;
    }
  }

  /** A quote reads back as itself exactly when its fields fit and its PCRs are strictly ascending. */
  lemma RoundTripExact(q: QuoteAttest)
    ensures Parsing(Encoded(q)) == Some(q) <==> Fits(q) && Ascending(q.selectedPcrs)
  {
    if Fits(q) {
      EncodedParses(q);
      InOrderExact(q.selectedPcrs);
      if Ascending(q.selectedPcrs) { AscendingUnique(InOrder(q.selectedPcrs), q.selectedPcrs); }
    } else if Parsing(Encoded(q)).Some? {
      ParsedFits(Encoded(q));
    }
  }

  // ---------- the code ----------

  lemma ScanStep(m: seq<byte>, i: nat, bit: nat)
    requires i < |m| <= MAX_WIDTH && bit < 8
    ensures Scan(m, 8 * i + bit + 1) == Scan(m, 8 * i + bit) + if HasBit(m[i], bit) then [8 * i + bit] else []
  {
    assert (8 * i + bit) / 8 == i && (8 * i + bit) % 8 == bit;
  }

  /** Walk the bitmap byte by byte, bit by bit. */
  method ScanBitmap(m: seq<byte>) returns (ps: seq<u32>)
    requires |m| <= MAX_WIDTH
    ensures ps == Positions(m)
  {
    ps := [];
    for i := 0 to |m|
      invariant ps == Scan(m, 8 * i)
    {
      for bit := 0 to 8
        invariant ps == Scan(m, 8 * i + bit)
      {
        ScanStep(m, i, bit);
        if HasBit(m[i], bit) { ps := ps + [i * 8 + bit]; }
      }
    }
  }

  lemma SelectionsStep(done: seq<u32>, rem: seq<byte>, left: nat)
    requires left > 0
    ensures match ReadSelection(rem)
            case None => Appended(done, ReadSelections(rem, left)) == None
            case Some(p) =>
              Appended(done, ReadSelections(rem, left)) == Appended(done + p.0, ReadSelections(p.1, left - 1))
  {
    if ReadSelection(rem).Some? {
      var (p, r) := ReadSelection(rem).value;
      if ReadSelections(r, left - 1).Some? {
        var qs := ReadSelections(r, left - 1).value.0;
        assert done + (p + qs) == (done + p) + qs;
      }
    }
  }

  method ParseSelection(r: Reader) returns (ps: Option<seq<u32>>)
    requires r.Valid()
    modifies r
    ensures r.Valid()
    ensures match ReadSelection(old(r.Remaining()))
            case Some(p) => ps == Some(p.0) && r.Remaining() == p.1
            case None => ps == None
  {
    var alg := r.Number(2);
    if alg == None { return None; }
    var width := r.Number(1);
    if width == None { return None; }
    if width.value > MAX_WIDTH { return None; }
    var bitmap := r.Take(width.value);
    if bitmap == None { return None; }
    if alg.value != TPM_ALG_SHA256 { return Some([]); }
    var found := ScanBitmap(bitmap.value);
    ps := Some(found);
  }

  method ParseSelections(r: Reader, count: nat) returns (ps: Option<seq<u32>>)
    requires r.Valid()
    modifies r
    ensures r.Valid()
    ensures match ReadSelections(old(r.Remaining()), count)
            case Some(p) => ps == Some(p.0) && r.Remaining() == p.1
            case None => ps == None
  {
    var done: seq<u32> := [];
    ghost var all := ReadSelections(r.Remaining(), count);
    AppendNothing(all);
    for i := 0 to count
      invariant r.Valid() && all == Appended(done, ReadSelections(r.Remaining(), count - i))
    {
      SelectionsStep(done, r.Remaining(), count - i);
      var p := ParseSelection(r);
      if p == None { return None; }
      done := done + p.value;
    }
    assert done + [] == done;
    ps := Some(done);
  }

  method ParseInfo(r: Reader) returns (info: Option<QuoteInfo>)
    requires r.Valid()
    modifies r
    ensures r.Valid() && info == ReadInfo(old(r.Remaining()))
  {
    var count := r.Number(4);
    if count == None { return None; }
    if count.value > MAX_SELECTIONS { return None; }
    var pcrs := ParseSelections(r, count.value);
    if pcrs == None { return None; }
    var digest := r.Blob();
    if digest == None { return None; }
    if |digest.value| != DIGEST_LEN { return None; }
    info := Some(QuoteInfo(Sort(pcrs.value), digest.value));
  }

  method ParseClock(r: Reader) returns (c: Option<ClockInfo>)
    requires r.Valid()
    modifies r
    ensures r.Valid()
    ensures match ReadClock(old(r.Remaining()))
            case Some(p) => c == Some(p.0) && r.Remaining() == p.1
            case None => c == None
  {
    var clock := r.Number(8);
    if clock == None { return None; }
    var resets := r.Number(4);
    if resets == None { return None; }
    var restarts := r.Number(4);
    if restarts == None { return None; }
    var safe := r.Number(1);
    if safe == None { return None; }
    PowersOf256();
    c := Some(ClockInfo(clock.value, resets.value, restarts.value, safe.value != 0));
  }

  method ParseHead(r: Reader) returns (h: Option<Head>)
    requires r.Valid()
    modifies r
    ensures r.Valid()
    ensures match ReadHead(old(r.Remaining()))
            case Some(p) => h == Some(p.0) && r.Remaining() == p.1
            case None => h == None
  {
    var magic := r.Number(4);
    if magic == None || magic.value != TPM_GENERATED_VALUE { return None; }
    var kind := r.Number(2);
    if kind == None || kind.value != TPM_ST_ATTEST_QUOTE { return None; }
    var signer := r.Blob();
    if signer == None { return None; }
    var extra := r.Blob();
    if extra == None { return None; }
    h := Some(Head(signer.value, extra.value));
  }

  /** `None` is a malformed quote. */
  method ParseQuote(bytes: seq<byte>) returns (q: Option<QuoteAttest>)
    ensures q == Parsing(bytes)
  {
    var r := new Reader(bytes);
    var head := ParseHead(r);
    if head == None { return None; }
    var clock := ParseClock(r);
    if clock == None { return None; }
    var firmware := r.U64();
    if firmware == None { return None; }
    var info := ParseInfo(r);
    if info == None { return None; }
    q := Some(QuoteAttest(head.value.signer, head.value.extra, clock.value, firmware.value, info.value.pcrs,
        info.value.digest));
  }

  /** Mark each PCR in a zeroed buffer, in place. */
  method BuildBitmap(ps: seq<u32>) returns (m: seq<byte>)
    ensures m == Bitmap(ps, Width(ps))
  {
    var width := Width(ps);
    var bitmap := new byte[width](_ => 0);
    assert bitmap[..] == seq(width, _ => 0);
    for i := 0 to |ps|
      invariant bitmap[..] == Bitmap(ps[..i], width)
    {
      assert ps[..i + 1][..i] == ps[..i];
      bitmap[ps[i] / 8] := OrBit(bitmap[ps[i] / 8], ps[i] % 8);
    }
    assert ps[..|ps|] == ps;
    m := bitmap[..];
  }

  method EncodeQuote(q: QuoteAttest) returns (out: seq<byte>)
    ensures out == Encoded(q)
  {
    var head := ToBe(TPM_GENERATED_VALUE, 4) + ToBe(TPM_ST_ATTEST_QUOTE, 2) + EncodeBlob(q.qualifiedSigner);
    head := head + EncodeBlob(q.extraData) + EncodeClock(q.clock) + ToBe(q.firmwareVersion, 8);
    var bitmap := BuildBitmap(q.selectedPcrs);
    var info := ToBe(1, 4) + ToBe(TPM_ALG_SHA256, 2) + ToBe(Width(q.selectedPcrs),
        1) + bitmap + EncodeBlob(q.pcrDigest);
    Regroup(ToBe(1, 4), ToBe(TPM_ALG_SHA256, 2), ToBe(Width(q.selectedPcrs), 1), bitmap, EncodeBlob(q.pcrDigest));
    out := head + info;
    RegroupHead(ToBe(TPM_GENERATED_VALUE, 4), ToBe(TPM_ST_ATTEST_QUOTE, 2), EncodeBlob(q.qualifiedSigner),
                EncodeBlob(q.extraData), EncodeClock(q.clock), ToBe(q.firmwareVersion, 8), info);
  }

  lemma Regroup(a: seq<byte>, b: seq<byte>, c: seq<byte>, d: seq<byte>, e: seq<byte>)
    ensures a + b + c + d + e == a + ((b + (c + d)) + e)
  {
    assert a + b + c + d == a + (b + (c + d));
  }

  lemma RegroupHead(a: seq<byte>, b: seq<byte>, c: seq<byte>, d: seq<byte>, e: seq<byte>, f: seq<byte>, g: seq<byte>)
    ensures a + b + c + d + e + f + g == a + (b + (c + (d + (e + (f + g)))))
  {
    assert a + b + c + d + e + f + g == a + b + c + d + e + (f + g);
    assert a + b + c + d + e + (f + g) == a + b + c + d + (e + (f + g));
    assert a + b + c + d + (e + (f + g)) == a + b + c + (d + (e + (f + g)));
    assert a + b + c + (d + (e + (f + g))) == a + b + (c + (d + (e + (f + g))));
  }
}
