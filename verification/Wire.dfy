/** Newline framing over a stream socket: lines read back from arbitrary chunks, with descriptors
    riding along, and lines written with arbitrary partial writes. */
module Wire {
  import opened Wrappers
  import opened Bytes

  const MAX_LINE_BYTES := 65_536
  const CHUNK := 8192
  const NL: byte := 10

  type Fd = nat

  /** One receive: at least one byte, at most a chunk, and the descriptors that came with it. */
  datatype Received = Received(bytes: seq<byte>, fds: seq<Fd>)
  type Chunk = r: Received | 1 <= |r.bytes| <= CHUNK witness Received([0], [])

  /** Bytes and descriptors held, and what the socket will still deliver before its end. */
  datatype Reader = Reader(buf: seq<byte>, fds: seq<Fd>, incoming: seq<Chunk>)

  datatype Outcome = Line(text: seq<byte>, fds: seq<Fd>) | Eof | Oversized(n: nat) | NotUtf8

  function NewlineAt(s: seq<byte>): (r: Option<nat>)
    ensures r.Some? ==> r.value < |s| && s[r.value] == NL && NL !in s[..r.value]
    ensures r == None <==> NL !in s
  {
    if s == [] then None
    else if s[0] == NL then Some(0)
    else
      match NewlineAt(s[1..])
      case Some(i) =>
        assert s[..i + 1] == [s[0]] + s[1..][..i];
        Some(i + 1)
      case None => None
  }

  function Reading(r: Reader, utf8: seq<byte> -> bool): (Reader, Outcome)
    decreases |r.incoming|
  {
    match NewlineAt(r.buf)
    case Some(pos) =>
      var line := r.buf[..pos];
      if utf8(line) then (r.(buf := r.buf[pos + 1..], fds := []), Line(line, r.fds))
      else (r.(buf := r.buf[pos + 1..]), NotUtf8)
    case None =>
      if |r.buf| > MAX_LINE_BYTES then (r, Oversized(|r.buf|))
      else if r.incoming == [] then (r, Eof)
      else Reading(Reader(r.buf + r.incoming[0].bytes, r.fds + r.incoming[0].fds, r.incoming[1..]), utf8)
  }

  // ---------- the objects ----------

  class Wire {
    var buf: seq<byte>
    var fds: seq<Fd>
    var incoming: seq<Chunk>

    constructor (incoming: seq<Chunk>)
      ensures View() == Reader([], [], incoming) && Valid()
    {
      buf := [];
      fds := [];
      this.incoming := incoming;
    }

    function View(): Reader
      reads this
    {
      Reader(buf, fds, incoming)
    }

    predicate Valid()
      reads this
    {
      |buf| <= MAX_LINE_BYTES + CHUNK
    }

    /** Whatever arrives, the buffer stays within one chunk of the cap, also inside the loop. */
    method ReadLine(utf8: seq<byte> -> bool) returns (r: Outcome)
      requires Valid()
      modifies this
      ensures Valid() && (View(), r) == Reading(old(View()), utf8)
    {
      while true
        invariant Valid() && Reading(View(), utf8) == Reading(old(View()), utf8)
        decreases |incoming|
      {
        var pos := NewlineAt(buf);
        if pos.Some? {
          var line := buf[..pos.value];
          buf := buf[pos.value + 1..];
          if !utf8(line) { return NotUtf8; }
          r := Line(line, fds);
          fds := [];
          return;
        }
        if |buf| > MAX_LINE_BYTES { return Oversized(|buf|); }
        if incoming == [] { return Eof; }
        fds := fds + incoming[0].fds;
        buf := buf + incoming[0].bytes;
        incoming := incoming[1..];
      }
    }
  }

  datatype Piece = Piece(bytes: seq<byte>, fd: Option<Fd>)

  function Flat(ps: seq<Piece>): seq<byte> {
    if ps == [] then [] else Flat(ps[..|ps| - 1]) + ps[|ps| - 1].bytes
  }

  /** The descriptor rides with every write up to and including the first that moves something. */
  ghost predicate Attached(ps: seq<Piece>, fd: Option<Fd>) {
    forall k :: 0 <= k < |ps| ==> ps[k].fd == if Flat(ps[..k]) == [] then fd else None
  }

  lemma PieceAdded(ps: seq<Piece>, fd: Option<Fd>, p: Piece)
    requires Attached(ps, fd) && p.fd == if Flat(ps) == [] then fd else None
    ensures Attached(ps + [p], fd) && Flat(ps + [p]) == Flat(ps) + p.bytes
  {
    var all := ps + [p];
    assert all[..|ps|] == ps;
    forall k | 0 <= k < |ps| ensures all[..k] == ps[..k] {}
  }

  /** Write a line and its newline in as many writes as it takes. Write `k` moves up to `takes[k]` bytes,
      possibly none, and running out of `takes` is a write error. */
  method Send(line: seq<byte>, fd: Option<Fd>, takes: seq<nat>) returns (ok: bool, pieces: seq<Piece>)
    ensures ok ==> Flat(pieces) == line + [NL]
    ensures !ok ==> Flat(pieces) < line + [NL] && |pieces| == |takes|
    ensures Attached(pieces, fd)
    ensures |pieces| <= |takes| && forall k :: 0 <= k < |pieces| ==> |pieces[k].bytes| <= takes[k]
  {
    var payload := line + [NL];
    var sent := 0;
    pieces := [];
    while sent < |payload|
      invariant 0 <= sent <= |payload| && Flat(pieces) == payload[..sent] && Attached(pieces, fd)
      invariant |pieces| <= |takes| && forall k :: 0 <= k < |pieces| ==> |pieces[k].bytes| <= takes[k]
      decreases |takes| - |pieces|
    {
      if |pieces| == |takes| { return false, pieces; }
      var asked := takes[|pieces|];
      var n := if asked > |payload| - sent then |payload| - sent else asked;
      var piece := Piece(payload[sent..sent + n], if sent == 0 then fd else None);
      PieceAdded(pieces, fd, piece);
      pieces := pieces + [piece];
      assert payload[..sent + n] == payload[..sent] + payload[sent..sent + n];
      sent := sent + n;
    }
    assert payload[..sent] == payload;
    ok := true;
  }

  lemma {:induction false} FlatGrows(ps: seq<Piece>, k: nat)
    requires 0 < k <= |ps| && ps[0].bytes != []
    ensures Flat(ps[..k]) != []
  {
    if k == 1 {
      assert ps[..1][..0] == [];
    } else {
      FlatGrows(ps, k - 1);
      assert ps[..k][..k - 1] == ps[..k - 1];
    }
  }

  /** If the first write moves something, which a socket that accepts a write does, the descriptor rides
      with that write only. */
  lemma DescriptorOnce(ps: seq<Piece>, fd: Option<Fd>, k: nat)
    requires Attached(ps, fd) && k < |ps| && ps[0].bytes != []
    ensures ps[k].fd == if k == 0 then fd else None
  {
    if k > 0 { FlatGrows(ps, k); }
  }

  // ---------- any chunking of the stream ----------

  function Joined(cs: seq<Chunk>): seq<byte> {
    if cs == [] then [] else cs[0].bytes + Joined(cs[1..])
  }

  /** Everything the reader holds and will be given. */
  function Stream(r: Reader): seq<byte> { r.buf + Joined(r.incoming) }

  function FirstLength(s: seq<byte>): nat {
    match NewlineAt(s)
    case Some(pos) => pos
    case None => |s|
  }

  lemma {:induction false} NewlineUnique(s: seq<byte>, i: nat)
    requires i < |s| && s[i] == NL && NL !in s[..i]
    ensures NewlineAt(s) == Some(i)
  {
    if i > 0 {
      assert s[..i] == [s[0]] + s[1..][..i - 1];
      NewlineUnique(s[1..], i - 1);
    }
  }

  lemma NewlinePrefix(s: seq<byte>, t: seq<byte>)
    requires NewlineAt(s).Some?
    ensures NewlineAt(s + t) == NewlineAt(s)
  {
    var i := NewlineAt(s).value;
    assert (s + t)[..i] == s[..i];
    NewlineUnique(s + t, i);
  }

  lemma {:induction false} NewlineLater(b: seq<byte>, t: seq<byte>)
    requires NL !in b
    ensures FirstLength(b + t) == |b| + FirstLength(t)
  {
    if b == [] {
      assert b + t == t;
    } else {
      assert b == [b[0]] + b[1..] && (b + t)[1..] == b[1..] + t;
      NewlineLater(b[1..], t);
    }
  }

  /** The text is handed over if it decodes. */
  predicate Yields(o: Outcome, text: seq<byte>, utf8: seq<byte> -> bool) {
    if utf8(text) then o.Line? && o.text == text else o == NotUtf8
  }

  lemma HeldLine(r: Reader, utf8: seq<byte> -> bool)
    requires NewlineAt(r.buf).Some?
    ensures var (r', o) := Reading(r, utf8);
            var s := Stream(r);
            var pos := NewlineAt(r.buf).value;
            NewlineAt(s) == Some(pos) && Yields(o, s[..pos], utf8) && Stream(r') == s[pos + 1..]
  {
    NewlinePrefix(r.buf, Joined(r.incoming));
    var pos := NewlineAt(r.buf).value;
    var s := Stream(r);
    assert s[..pos] == r.buf[..pos];
    assert s[pos + 1..] == r.buf[pos + 1..] + Joined(r.incoming);
  }

  function Fed(r: Reader): Reader
    requires r.incoming != []
  {
    Reader(r.buf + r.incoming[0].bytes, r.fds + r.incoming[0].fds, r.incoming[1..])
  }

  lemma FedStream(r: Reader)
    requires r.incoming != []
    ensures Stream(Fed(r)) == Stream(r)
  {
  }

  /** One read, however the stream is cut: the first line if there is one, else the end, and the
      stream that follows; never "oversized" while the first line is within the cap. */
  lemma {:induction false} ReadsFirstLine(r: Reader, utf8: seq<byte> -> bool)
    requires FirstLength(Stream(r)) <= MAX_LINE_BYTES
    ensures var (r', o) := Reading(r, utf8);
            var s := Stream(r);
            match NewlineAt(s)
            case Some(pos) => Yields(o, s[..pos], utf8) && Stream(r') == s[pos + 1..]
            case None => o == Eof && Stream(r') == s && r'.incoming == []
    decreases |r.incoming|
  {
    if NewlineAt(r.buf).Some? {
      HeldLine(r, utf8);
    } else {
      NewlineLater(r.buf, Joined(r.incoming));
      if r.incoming == [] {
        assert Stream(r) == r.buf;
      } else {
        FedStream(r);
        ReadsFirstLine(Fed(r), utf8);
      }
    }
  }

  /** The buffer a read leaves is within one chunk of the cap, whatever the input. */
  lemma {:induction false} BufferBounded(r: Reader, utf8: seq<byte> -> bool)
    requires |r.buf| <= MAX_LINE_BYTES + CHUNK
    ensures |Reading(r, utf8).0.buf| <= MAX_LINE_BYTES + CHUNK
    decreases |r.incoming|
  {
    if NewlineAt(r.buf) == None && |r.buf| <= MAX_LINE_BYTES && r.incoming != [] { BufferBounded(Fed(r), utf8); }
  }

  // ---------- all lines, in order ----------

  function Lines(s: seq<byte>): seq<seq<byte>>
    decreases |s|
  {
    match NewlineAt(s)
    case Some(pos) => [s[..pos]] + Lines(s[pos + 1..])
    case None => []
  }

  predicate AllShort(s: seq<byte>)
    decreases |s|
  {
    FirstLength(s) <= MAX_LINE_BYTES &&
    match NewlineAt(s)
    case Some(pos) => AllShort(s[pos + 1..])
    case None => true
  }

  function Results(r: Reader, n: nat, utf8: seq<byte> -> bool): (out: seq<Outcome>)
    ensures |out| == n
    decreases n
  {
    if n == 0 then [] else var (r', o) := Reading(r, utf8); [o] + Results(r', n - 1, utf8)
  }

  lemma {:induction false} ResultsStep(r: Reader, n: nat, utf8: seq<byte> -> bool)
    ensures var (r', o) := Reading(r, utf8);
            var out := Results(r, n + 1, utf8);
            out[0] == o && forall k :: 0 < k <= n ==> out[k] == Results(r', n, utf8)[k - 1]
  {
  }

  /** One read of a stream of short lines takes its first line off, or finds the end. */
  lemma {:induction false} ReadsNext(r: Reader, utf8: seq<byte> -> bool)
    requires AllShort(Stream(r))
    ensures var (r', o) := Reading(r, utf8);
            var lines := Lines(Stream(r));
            if lines == [] then o == Eof
            else Yields(o, lines[0], utf8) && AllShort(Stream(r')) && Lines(Stream(r')) == lines[1..]
  {
    var s := Stream(r);
    ReadsFirstLine(r, utf8);
    if NewlineAt(s).Some? {
      LinesSplit(s, NewlineAt(s).value);
      ShortRest(s, NewlineAt(s).value);
    }
  }

  lemma {:induction false} LinesSplit(s: seq<byte>, pos: nat)
    requires NewlineAt(s) == Some(pos)
    ensures Lines(s) == [s[..pos]] + Lines(s[pos + 1..])
  {
  }

  lemma {:induction false} ShortRest(s: seq<byte>, pos: nat)
    requires NewlineAt(s) == Some(pos) && AllShort(s)
    ensures AllShort(s[pos + 1..])
  {
  }

  /** For every way of cutting a stream of short lines into chunks, successive reads deliver exactly
      its lines, in order, and then the end. */
  lemma {:induction false} DeliversLines(r: Reader, lines: seq<seq<byte>>, utf8: seq<byte> -> bool, k: nat)
    requires AllShort(Stream(r)) && lines == Lines(Stream(r)) && k <= |lines|
    ensures var out := Results(r, |lines| + 1, utf8);
            (k < |lines| ==> Yields(out[k], lines[k], utf8)) && out[|lines|] == Eof
    decreases |lines|
  {
    var (r', o) := Reading(r, utf8);
    ReadsNext(r, utf8);
    ResultsStep(r, |lines|, utf8);
    if lines != [] {
      DeliversLines(r', lines[1..], utf8, if k == 0 then 0 else k - 1);
    }
  }

  // ---------- the cap is exact ----------

  function OneByOne(s: seq<byte>): (cs: seq<Chunk>)
    ensures Joined(cs) == s
  {
    if s == [] then []
    else
      assert s == [s[0]] + s[1..];
      [Received([s[0]], [])] + OneByOne(s[1..])
  }

  lemma {:induction false} TrickleOversized(buf: seq<byte>, s: seq<byte>, utf8: seq<byte> -> bool)
    requires |buf| <= MAX_LINE_BYTES + 1 && |buf + s| > MAX_LINE_BYTES && NL !in (buf + s)[..MAX_LINE_BYTES + 1]
    ensures Reading(Reader(buf, [], OneByOne(s)), utf8).1.Oversized?
    decreases MAX_LINE_BYTES + 1 - |buf|
  {
    var all := buf + s;
    assert buf == all[..MAX_LINE_BYTES + 1][..|buf|];
    if |buf| <= MAX_LINE_BYTES {
      assert buf + [s[0]] + s[1..] == all;
      TrickleOversized(buf + [s[0]], s[1..], utf8);
      var r := Reader(buf, [], OneByOne(s));
      assert Fed(r) == Reader(buf + [s[0]], [], OneByOne(s[1..]));
    }
  }

  /** A first line is safe under every chunking exactly when it is within the cap: a longer one is
      refused if it trickles in byte by byte. */
  lemma CapExact(s: seq<byte>, utf8: seq<byte> -> bool)
    ensures (forall cs :: Joined(cs) == s ==> !Reading(Reader([], [], cs), utf8).1.Oversized?) <==>
            FirstLength(s) <= MAX_LINE_BYTES
  {
    if FirstLength(s) <= MAX_LINE_BYTES {
      forall cs | Joined(cs) == s ensures !Reading(Reader([], [], cs), utf8).1.Oversized? {
        assert Stream(Reader([], [], cs)) == s;
        ReadsFirstLine(Reader([], [], cs), utf8);
      }
    } else {
      assert [] + s == s;
      if NewlineAt(s).Some? {
        assert s[..MAX_LINE_BYTES + 1] == s[..NewlineAt(s).value][..MAX_LINE_BYTES + 1];
      }
      TrickleOversized([], s, utf8);
      assert Joined(OneByOne(s)) == s;
    }
  }

  // ---------- from sender to reader ----------

  function Payloads(ls: seq<seq<byte>>): seq<byte> {
    if ls == [] then [] else ls[0] + [NL] + Payloads(ls[1..])
  }

  lemma {:induction false} PayloadLines(ls: seq<seq<byte>>)
    requires forall i :: 0 <= i < |ls| ==> NL !in ls[i] && |ls[i]| <= MAX_LINE_BYTES
    ensures Lines(Payloads(ls)) == ls && AllShort(Payloads(ls))
  {
    if ls != [] {
      PayloadLines(ls[1..]);
      var s := Payloads(ls);
      var n := |ls[0]|;
      assert s[..n] == ls[0] && s[n] == NL && s[n + 1..] == Payloads(ls[1..]);
      NewlineUnique(s, n);
      assert ls == [ls[0]] + ls[1..];
    }
  }

  lemma {:induction false} LinesClean(s: seq<byte>, k: nat)
    requires k < |Lines(s)|
    ensures NL !in Lines(s)[k]
    decreases |s|
  {
    var pos := NewlineAt(s).value;
    if k > 0 { LinesClean(s[pos + 1..], k - 1); }
  }

  /** Short lines survive framing exactly when none of them holds a newline. */
  lemma FramingExact(ls: seq<seq<byte>>)
    requires forall i :: 0 <= i < |ls| ==> |ls[i]| <= MAX_LINE_BYTES
    ensures Lines(Payloads(ls)) == ls <==> forall i :: 0 <= i < |ls| ==> NL !in ls[i]
  {
    if Lines(Payloads(ls)) == ls {
      forall i | 0 <= i < |ls| ensures NL !in ls[i] { LinesClean(Payloads(ls), i); }
    }
    if forall i :: 0 <= i < |ls| ==> NL !in ls[i] { PayloadLines(ls); }
  }

  /** Lines without newlines, within the cap, sent with any partial writes and received in any
      chunks, are read back one by one. */
  lemma SentIsRead(ls: seq<seq<byte>>, cs: seq<Chunk>, utf8: seq<byte> -> bool, k: nat)
    requires forall i :: 0 <= i < |ls| ==> NL !in ls[i] && |ls[i]| <= MAX_LINE_BYTES
    requires Joined(cs) == Payloads(ls) && k < |ls|
    ensures var out := Results(Reader([], [], cs), |ls| + 1, utf8); Yields(out[k], ls[k], utf8) && out[|ls|] == Eof
  {
    PayloadLines(ls);
    assert Stream(Reader([], [], cs)) == Payloads(ls);
    DeliversLines(Reader([], [], cs), ls, utf8, k);
  }

  // ---------- descriptors ----------

  function AllFds(cs: seq<Chunk>): seq<Fd> {
    if cs == [] then [] else cs[0].fds + AllFds(cs[1..])
  }

  function Handed(o: Outcome): seq<Fd> { if o.Line? then o.fds else [] }

  /** Descriptors held, then those still to come. */
  function Holding(r: Reader): seq<Fd> { r.fds + AllFds(r.incoming) }

  lemma FedHolding(r: Reader)
    requires r.incoming != []
    ensures Holding(Fed(r)) == Holding(r)
  {
    var x, y, z := r.fds, r.incoming[0].fds, AllFds(r.incoming[1..]);
    assert (x + y) + z == x + (y + z);
  }

  lemma EmptyFirst(s: seq<Fd>)
    ensures [] + s == s
  {
  }

  /** No descriptor is lost or handed out twice: what a read hands out, then what is still held or to
      come, is what there was. */
  lemma {:induction false} FdsConserved(r: Reader, utf8: seq<byte> -> bool)
    ensures var (r', o) := Reading(r, utf8); Handed(o) + Holding(r') == Holding(r)
    decreases |r.incoming|
  {
    if NewlineAt(r.buf) == None && |r.buf| <= MAX_LINE_BYTES && r.incoming != [] {
      FdsConserved(Fed(r), utf8);
      FedHolding(r);
    } else {
      EmptyFirst(AllFds(r.incoming));
      EmptyFirst(Holding(r));
    }
  }
}
