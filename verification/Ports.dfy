/** Port sets as text: "22,443,8000-8100". */
module Ports {
  import opened Wrappers
  import opened Text
  import opened PolicySpec

  /** Unicode White_Space. */
  predicate IsSpace(c: char) {
    var n := c as int;
    9 <= n <= 13 || n == 0x20 || n == 0x85 || n == 0xa0 || n == 0x1680 || 0x2000 <= n <= 0x200a
    || n == 0x2028 || n == 0x2029 || n == 0x202f || n == 0x205f || n == 0x3000
  }

  function TrimStart(s: string): string {
    if s != [] && IsSpace(s[0]) then TrimStart(s[1..]) else s
  }

  function TrimEnd(s: string): string {
    if s != [] && IsSpace(s[|s| - 1]) then TrimEnd(s[..|s| - 1]) else s
  }

  function Trim(s: string): string { TrimEnd(TrimStart(s)) }

  function Split(s: string, c: char): seq<string>
    decreases |s|
  {
    match After(s, c)
    case None => [s]
    case Some(rest) => [Before(s, c)] + Split(rest, c)
  }

  function Join(parts: seq<string>, c: char): string {
    if parts == [] then "" else if |parts| == 1 then parts[0] else parts[0] + [c] + Join(parts[1..], c)
  }

  const MAX_PORT := 65535

  /** One part: a port, or two around a dash, in order. */
  function ReadRange(part: string): Option<PortRange> {
    var a := if After(part, '-').Some? then Trim(Before(part, '-')) else part;
    var b := if After(part, '-').Some? then Trim(After(part, '-').value) else part;
    var lo :- ParseInt(a, 0, MAX_PORT);
    var hi :- ParseInt(b, 0, MAX_PORT);
    if lo > hi then None else Some(PortRange(lo, hi))
  }

  /** A blank part is skipped; the first bad one is the error. */
  function AddPart(before: Result<seq<PortRange>, string>, text: string): Result<seq<PortRange>, string> {
    match before
    case Err(e) => Err(e)
    case Ok(ranges) =>
      var part := Trim(text);
      if part == [] then Ok(ranges)
      else if ReadRange(part) == None then Err(part)
      else Ok(ranges + [ReadRange(part).value])
  }

  function ReadParts(parts: seq<string>): Result<seq<PortRange>, string> {
    if parts == [] then Ok([]) else AddPart(ReadParts(parts[..|parts| - 1]), parts[|parts| - 1])
  }

  function Parsing(s: string): Result<PortSet, string> {
    match ReadParts(Split(s, ','))
    case Ok(ranges) => Ok(PortSet(ranges))
    case Err(e) => Err(e)
  }

  lemma {:induction false} FirstErrorStays(parts: seq<string>, k: nat)
    requires k <= |parts| && ReadParts(parts[..k]).Err?
    ensures ReadParts(parts) == ReadParts(parts[..k])
    decreases |parts|
  {
    if k == |parts| {
      assert parts[..k] == parts;
    } else {
      assert parts[..|parts| - 1][..k] == parts[..k];
      FirstErrorStays(parts[..|parts| - 1], k);
    }
  }

  method Parse(s: string) returns (r: Result<PortSet, string>)
    ensures r == Parsing(s)
  {
    var parts := Split(s, ',');
    var ranges: seq<PortRange> := [];
    for i := 0 to |parts|
      invariant ReadParts(parts[..i]) == Ok(ranges)
    {
      assert parts[..i + 1][..i] == parts[..i];
      var part := Trim(parts[i]);
      if part != [] {
        var range := ReadRange(part);
        if range == None {
          FirstErrorStays(parts, i + 1);
          return Err(part);
        }
        ranges := ranges + [range.value];
      }
    }
    assert parts[..|parts|] == parts;
    r := Ok(PortSet(ranges));
  }

  // ---------- writing ----------

  function Digit(n: nat): (c: char)
    requires n < 10
    ensures IsDigit(c) && DigitValue(c) == n
  {
    ('0' as int + n) as char
  }

  function Decimal(n: nat): string {
    if n < 10 then [Digit(n)] else Decimal(n / 10) + [Digit(n % 10)]
  }

  function RangeText(r: PortRange): string {
    if r.start == r.end then Decimal(r.start) else Decimal(r.start) + "-" + Decimal(r.end)
  }

  function Texts(rs: seq<PortRange>): (ts: seq<string>)
    ensures |ts| == |rs|
  {
    if rs == [] then [] else Texts(rs[..|rs| - 1]) + [RangeText(rs[|rs| - 1])]
  }

  function Serialized(p: PortSet): string { Join(Texts(p.ranges), ',') }

  // ---------- round trip ----------

  predicate AllDigits(s: string) { s != [] && forall i :: 0 <= i < |s| ==> IsDigit(s[i]) }

  lemma {:induction false} DecimalRead(n: nat)
    ensures AllDigits(Decimal(n)) && DigitsValue(Decimal(n)) == n
  {
    if n >= 10 {
      DecimalRead(n / 10);
      var d := Decimal(n);
      assert d[..|d| - 1] == Decimal(n / 10);
    }
  }

  lemma DecimalParses(n: u16)
    ensures ParseInt(Decimal(n), 0, MAX_PORT) == Some(n)
  {
    DecimalRead(n);
    assert IsDigit(Decimal(n)[0]);
  }

  /** Digits and dashes only, starting and ending with a digit. */
  predicate Plain(s: string) {
    s != [] && IsDigit(s[0]) && IsDigit(s[|s| - 1]) && forall i :: 0 <= i < |s| ==> IsDigit(s[i]) || s[i] == '-'
  }

  lemma PlainTrims(s: string)
    requires Plain(s)
    ensures Trim(s) == s
  {
  }

  lemma RangeTextPlain(r: PortRange)
    ensures Plain(RangeText(r))
  {
    DecimalRead(r.start);
    DecimalRead(r.end);
  }

  lemma {:induction false} IndexAfter(a: string, c: char, b: string)
    requires forall i :: 0 <= i < |a| ==> a[i] != c
    ensures IndexOf(a + [c] + b, c) == |a|
  {
    var s := a + [c] + b;
    var i := IndexOf(s, c);
    assert s[|a|] == c;
    assert forall j :: 0 <= j < |a| ==> s[j] == a[j];
  }

  lemma {:induction false} NoIndex(a: string, c: char)
    requires forall i :: 0 <= i < |a| ==> a[i] != c
    ensures After(a, c) == None
  {
  }

  lemma RangeRead(r: PortRange)
    ensures ReadRange(RangeText(r)) == if r.start <= r.end then Some(r) else None
  {
    var a, b := Decimal(r.start), Decimal(r.end);
    DecimalRead(r.start);
    DecimalRead(r.end);
    DecimalParses(r.start);
    DecimalParses(r.end);
    if r.start == r.end {
      NoIndex(a, '-');
    } else {
      IndexAfter(a, '-', b);
      var t := a + "-" + b;
      assert Before(t, '-') == a && After(t, '-') == Some(b);
      PlainTrims(a);
      PlainTrims(b);
    }
  }

  lemma {:induction false} SplitJoin(parts: seq<string>, c: char)
    requires parts != [] && forall k, i :: 0 <= k < |parts| && 0 <= i < |parts[k]| ==> parts[k][i] != c
    ensures Split(Join(parts, c), c) == parts
  {
    if |parts| == 1 {
      NoIndex(parts[0], c);
    } else {
      var rest := Join(parts[1..], c);
      IndexAfter(parts[0], c, rest);
      var s := parts[0] + [c] + rest;
      assert Before(s, c) == parts[0] && After(s, c) == Some(rest);
      SplitJoin(parts[1..], c);
    }
  }

  lemma {:induction false} TextsAt(rs: seq<PortRange>, k: nat)
    requires k < |rs|
    ensures Texts(rs)[k] == RangeText(rs[k])
  {
    if k < |rs| - 1 { TextsAt(rs[..|rs| - 1], k); }
  }

  predicate Ordered(p: PortSet) { forall k :: 0 <= k < |p.ranges| ==> p.ranges[k].start <= p.ranges[k].end }

  lemma AddText(before: Result<seq<PortRange>, string>, r: PortRange)
    requires before.Ok?
    ensures AddPart(before, RangeText(r)) ==
            if r.start <= r.end then Ok(before.value + [r]) else Err(RangeText(r))
  {
    RangeTextPlain(r);
    PlainTrims(RangeText(r));
    RangeRead(r);
  }

  /** Adding the text of one more range to what was read so far. */
  lemma TextAdded(ts: seq<string>, r: PortRange)
    ensures match ReadParts(ts)
            case Err(e) => ReadParts(ts + [RangeText(r)]) == Err(e)
            case Ok(before) =>
              ReadParts(ts + [RangeText(r)]) == if r.start <= r.end then Ok(before + [r]) else Err(RangeText(r))
  {
    assert (ts + [RangeText(r)])[..|ts|] == ts;
    if ReadParts(ts).Ok? { AddText(ReadParts(ts), r); }
  }

  lemma {:induction false} OrderedRead(rs: seq<PortRange>, ts: seq<string>)
    requires Ordered(PortSet(rs)) && ts == Texts(rs)
    ensures ReadParts(ts) == Ok(rs)
  {
    if rs == [] {
      assert ts == [];
    } else {
      var before, last := rs[..|rs| - 1], rs[|rs| - 1];
      var first := Texts(before);
      OrderedRead(before, first);
      assert ts == first + [RangeText(last)];
      TextAdded(first, last);
      assert rs == before + [last];
    }
  }

  lemma {:induction false} DisorderedRead(rs: seq<PortRange>, k: nat)
    requires k < |rs| && rs[k].start > rs[k].end
    ensures ReadParts(Texts(rs)).Err?
  {
    var before, last := rs[..|rs| - 1], rs[|rs| - 1];
    TextAdded(Texts(before), last);
    if k < |rs| - 1 { DisorderedRead(before, k); }
  }

  /** A port set reads back from its own text exactly when each of its ranges is in order. */
  lemma RoundTripExact(p: PortSet)
    ensures Parsing(Serialized(p)) == Ok(p) <==> Ordered(p)
  {
    var rs, ts := p.ranges, Texts(p.ranges);
    if Ordered(p) {
      OrderedRead(rs, ts);
    } else {
      var k :| 0 <= k < |rs| && rs[k].start > rs[k].end;
      DisorderedRead(rs, k);
    }
    if rs == [] {
      NoIndex("", ',');
      assert ReadParts([""]) == Ok([]) by { assert [""][..0] == []; }
    } else {
      forall k, i | 0 <= k < |ts| && 0 <= i < |ts[k]| ensures ts[k][i] != ',' {
        TextsAt(rs, k);
        RangeTextPlain(rs[k]);
      }
      SplitJoin(ts, ',');
    }
  }
}
