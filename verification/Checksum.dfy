/** The Internet checksum (section 1 of RFC 1071) and fixing an IPv4/ICMP packet in place. */
module Checksum {
  import opened Bytes

  const WORD := 0x1_0000
  const WRAP := 0x1_0000_0000

  /** The longest data whose word sum always fits 32 bits. */
  const SAFE_LENGTH := 131_074

  function Word(high: byte, low: byte): nat {
    var h: int, l: int := high, low;
    256 * h + l
  }

  /** The sum of the first `k` big-endian words. */
  function Words(d: seq<byte>, k: nat): nat
    requires 2 * k <= |d|
  {
    if k == 0 then 0 else Words(d, k - 1) + Word(d[2 * k - 2], d[2 * k - 1])
  }

  /** An odd last byte is the high half of a word. */
  function Total(d: seq<byte>): nat {
    Words(d, |d| / 2) + if |d| % 2 == 1 then Word(d[|d| - 1], 0) else 0
  }

  function Fold(s: nat): (r: nat)
    ensures r < WORD
  {
    if s < WORD then s else Fold(s % WORD + s / WORD)
  }

  /** The running sum is a 32-bit integer. */
  function Sum(d: seq<byte>): u16 {
    0xffff - Fold(Total(d) % WRAP)
  }

  // ---------- folding ----------

  /** Folding keeps the value modulo 65535, and zero only for zero. */
  lemma {:induction false} FoldKeeps(s: nat)
    ensures Fold(s) % 0xffff == s % 0xffff
    ensures Fold(s) == 0 <==> s == 0
  {
    if s >= WORD {
      FoldKeeps(s % WORD + s / WORD);
      assert s == (s % WORD + s / WORD) + 0xffff * (s / WORD);
    }
  }

  lemma FoldCompletes(s: nat)
    ensures Fold(s + (0xffff - Fold(s))) == 0xffff
  {
    var f := Fold(s);
    var t := s + (0xffff - f);
    assert s % 0xffff == f % 0xffff && t > 0 by { FoldKeeps(s); }
    MultipleOf(s, f);
    FoldKeeps(t);
    FullWord(Fold(t));
  }

  lemma FullWord(f: nat)
    requires 0 < f < WORD && f % 0xffff == 0
    ensures f == 0xffff
  {
  }

  lemma MultipleOf(s: nat, f: nat)
    requires f <= 0xffff && s % 0xffff == f % 0xffff
    ensures (s + (0xffff - f)) % 0xffff == 0
  {
    assert s == 0xffff * (s / 0xffff) + s % 0xffff;
    if f == 0xffff { assert (s + (0xffff - f)) == 0xffff * (s / 0xffff); }
    else { assert s + (0xffff - f) == 0xffff * (s / 0xffff + 1); }
  }

  // ---------- sums fit ----------

  lemma {:induction false} WordsBound(d: seq<byte>, k: nat)
    requires 2 * k <= |d|
    ensures Words(d, k) <= 0xffff * k
  {
    if k > 0 { WordsBound(d, k - 1); }
  }

  lemma {:induction false} AllOnes(n: nat, k: nat)
    requires 2 * k <= n
    ensures Words(seq(n, _ => 0xff), k) == 0xffff * k
  {
    if k > 0 { AllOnes(n, k - 1); }
  }

  /** The 32-bit sum cannot overflow, whatever the bytes, exactly up to this length. */
  lemma NoOverflowExact(n: nat)
    ensures (forall d: seq<byte> :: |d| == n ==> Total(d) < WRAP) <==> n <= SAFE_LENGTH
  {
    if n <= SAFE_LENGTH {
      forall d: seq<byte> | |d| == n ensures Total(d) < WRAP { WordsBound(d, n / 2); }
    } else {
      var d: seq<byte> := seq(n, _ => 0xff);
      AllOnes(n, n / 2);
      assert |d| == n && Total(d) >= WRAP;
    }
  }

  // ---------- writing a checksum field ----------

  function Put(d: seq<byte>, pos: nat, c: u16): (r: seq<byte>)
    requires pos + 1 < |d|
    ensures |r| == |d|
  {
    d[pos := c / 256][pos + 1 := c % 256]
  }

  lemma {:induction false} PutWords(d: seq<byte>, pos: nat, c: u16, k: nat)
    requires pos % 2 == 0 && pos + 1 < |d| && d[pos] == 0 && d[pos + 1] == 0 && 2 * k <= |d|
    ensures Words(Put(d, pos, c), k) == Words(d, k) + if pos / 2 < k then c else 0
  {
    if k > 0 { PutWords(d, pos, c, k - 1); }
  }

  lemma PutTotal(d: seq<byte>, pos: nat, c: u16)
    requires pos % 2 == 0 && pos + 1 < |d| && d[pos] == 0 && d[pos + 1] == 0
    ensures Total(Put(d, pos, c)) == Total(d) + c
  {
    PutWords(d, pos, c, |d| / 2);
  }

  lemma SumSmall(d: seq<byte>)
    requires |d| <= SAFE_LENGTH
    ensures Sum(d) == 0xffff - Fold(Total(d))
  {
    var t := Total(d);
    assert t < WRAP by { WordsBound(d, |d| / 2); }
    Unwrapped(t);
  }

  lemma Unwrapped(t: nat)
    requires t < WRAP
    ensures t % WRAP == t
  {
  }

  /** Writing the checksum of data with a zeroed field into that field makes the data check to zero. */
  lemma PutChecks(d: seq<byte>, pos: nat)
    requires pos % 2 == 0 && pos + 1 < |d| <= SAFE_LENGTH && d[pos] == 0 && d[pos + 1] == 0
    ensures Sum(Put(d, pos, Sum(d))) == 0
  {
    SumSmall(d);
    SumSmall(Put(d, pos, Sum(d)));
    PutTotal(d, pos, Sum(d));
    FoldCompletes(Total(d));
  }

  // ---------- the code ----------

  lemma AddWrapped(x: nat, y: nat)
    ensures (x % WRAP + y) % WRAP == (x + y) % WRAP
  {
  }

  method Accumulate(a: array<byte>, lo: nat, hi: nat) returns (sum: nat)
    requires lo <= hi <= a.Length
    ensures sum == Total(a[lo..hi]) % WRAP
  {
    ghost var d := a[lo..hi];
    var n, i := hi - lo, 0;
    sum := 0;
    while i + 1 < n
      invariant 0 <= i <= n && i % 2 == 0 && sum == Words(d, i / 2) % WRAP
    {
      AddWrapped(Words(d, i / 2), Word(d[i], d[i + 1]));
      sum := (sum + Word(a[lo + i], a[lo + i + 1])) % WRAP;
      i := i + 2;
    }
    if i < n {
      AddWrapped(Words(d, i / 2), Word(d[i], 0));
      sum := (sum + Word(a[lo + i], 0)) % WRAP;
    }
  }

  method Checksum(a: array<byte>, lo: nat, hi: nat) returns (c: u16)
    requires lo <= hi <= a.Length
    ensures c == Sum(a[lo..hi])
  {
    var sum: nat := Accumulate(a, lo, hi);
    ghost var whole := sum;
    while sum / WORD != 0
      invariant sum >= 0 && Fold(sum) == Fold(whole)
      decreases sum
    {
      sum := sum % WORD + sum / WORD;
    }
    c := 0xffff - sum;
  }

  /** The header length the first byte gives. */
  function HeaderLength(p: seq<byte>): nat
    requires p != []
  {
    p[0] % 16 * 4
  }

  predicate Fixable(p: seq<byte>) {
    |p| >= 20 && 20 <= HeaderLength(p) <= |p|
  }

  predicate HasIcmp(p: seq<byte>)
    requires Fixable(p)
  {
    |p| >= HeaderLength(p) + 4
  }

  /** The checksum bytes: two in the header and, when there are four bytes after it, two there. */
  predicate Touched(p: seq<byte>, i: nat)
    requires Fixable(p)
  {
    i == 10 || i == 11 || (HasIcmp(p) && (i == HeaderLength(p) + 2 || i == HeaderLength(p) + 3))
  }

  function Zeroed(p: seq<byte>): (z: seq<byte>)
    requires Fixable(p)
    ensures |z| == |p|
  {
    if HasIcmp(p) then Put(Put(p, 10, 0), HeaderLength(p) + 2, 0) else Put(p, 10, 0)
  }

  /** What the packet is afterwards: zero the checksum bytes, then write the two checksums; a packet
      that is not ICMP is left with the two bytes after its header zeroed. */
  function Fixed(p: seq<byte>): seq<byte> {
    if !Fixable(p) then p else
    var h := HeaderLength(p);
    var y := Put(Zeroed(p), 10, Sum(Zeroed(p)[..h]));
    if p[9] == 1 && HasIcmp(p) then Put(y, h + 2, Sum(y[h..])) else y
  }

  method PutAt(a: array<byte>, pos: nat, c: u16)
    requires pos + 1 < a.Length
    modifies a
    ensures a[..] == Put(old(a[..]), pos, c)
  {
    a[pos] := c / 256;
    a[pos + 1] := c % 256;
  }

  method FixIpv4AndIcmp(a: array<byte>)
    modifies a
    ensures a[..] == Fixed(old(a[..]))
  {
    if a.Length < 20 { return; }
    var h := a[0] % 16 * 4;
    if h < 20 || a.Length < h { return; }
    ghost var p := a[..];
    PutAt(a, 10, 0);
    if a.Length >= h + 4 { PutAt(a, h + 2, 0); }
    assert a[..] == Zeroed(p);
    assert a[0..h] == a[..][..h];
    var c := Checksum(a, 0, h);
    PutAt(a, 10, c);
    if a[9] == 1 && a.Length >= h + 4 {
      assert a[h..a.Length] == a[..][h..];
      c := Checksum(a, h, a.Length);
      PutAt(a, h + 2, c);
    }
  }

  lemma HeaderChecks(z: seq<byte>, h: nat)
    requires 12 <= h <= |z| && h <= SAFE_LENGTH && z[10] == 0 && z[11] == 0
    ensures Sum(Put(z, 10, Sum(z[..h]))[..h]) == 0
  {
    var c := Sum(z[..h]);
    assert Put(z, 10, c)[..h] == Put(z[..h], 10, c);
    PutChecks(z[..h], 10);
  }

  lemma BodyChecks(y: seq<byte>, h: nat)
    requires h + 4 <= |y| <= SAFE_LENGTH && y[h + 2] == 0 && y[h + 3] == 0
    ensures Sum(Put(y, h + 2, Sum(y[h..]))[h..]) == 0
    ensures Put(y, h + 2, Sum(y[h..]))[..h] == y[..h]
  {
    var c := Sum(y[h..]);
    assert Put(y, h + 2, c)[h..] == Put(y[h..], 2, c);
    PutChecks(y[h..], 2);
  }

  /** After fixing, the header checks to zero, and so does the body of an ICMP packet. */
  lemma FixedChecks(p: seq<byte>)
    requires Fixable(p) && |p| <= SAFE_LENGTH
    ensures |Fixed(p)| == |p| && Sum(Fixed(p)[..HeaderLength(p)]) == 0
    ensures p[9] == 1 && HasIcmp(p) ==> Sum(Fixed(p)[HeaderLength(p)..]) == 0
  {
    var h := HeaderLength(p);
    HeaderChecks(Zeroed(p), h);
    if p[9] == 1 && HasIcmp(p) { BodyChecks(Put(Zeroed(p), 10, Sum(Zeroed(p)[..h])), h); }
  }

  /** No byte but the checksum bytes changes. */
  lemma FixedChangesOnly(p: seq<byte>)
    requires Fixable(p)
    ensures |Fixed(p)| == |p| && forall i :: 0 <= i < |p| && !Touched(p, i) ==> Fixed(p)[i] == p[i]
  {
  }

  /** Everything but the header checksum is as it was. */
  ghost predicate PayloadKept(p: seq<byte>) {
    |Fixed(p)| == |p| && forall i :: 0 <= i < |p| && i != 10 && i != 11 ==> Fixed(p)[i] == p[i]
  }

  /** A packet that is not ICMP keeps its payload exactly when fewer than four bytes follow the header
      or the third and fourth of them are zero already. */
  lemma PayloadKeptExact(p: seq<byte>)
    requires Fixable(p) && p[9] != 1
    ensures PayloadKept(p) <==> !HasIcmp(p) || (p[HeaderLength(p) + 2] == 0 && p[HeaderLength(p) + 3] == 0)
  {
    FixedChangesOnly(p);
    if HasIcmp(p) {
      var h := HeaderLength(p);
      assert Zeroed(p)[h + 2] == 0 && Zeroed(p)[h + 3] == 0;
      assert Fixed(p)[h + 2] == 0 && Fixed(p)[h + 3] == 0;
    }
  }

  /** A UDP packet to port 53 comes out addressed to port 0. */
  lemma UdpPortLost() returns (p: seq<byte>)
    ensures Fixable(p) && p[9] == 17 && HeaderLength(p) == 20 && |p| == 28 && !PayloadKept(p)
    ensures p[22..24] == [0, 53] && Fixed(p)[22..24] == [0, 0]
  {
    p := [0x45, 0, 0, 28, 0, 0, 0, 0, 64, 17, 0, 0, 10, 0, 0, 2, 10, 0, 0, 3, 4, 0, 0, 53, 0, 8, 0, 0];
    assert p[22] == 0 && p[23] == 53 && HeaderLength(p) == 20 && HasIcmp(p);
    PayloadKeptExact(p);
    FixedChangesOnly(p);
    assert Zeroed(p)[22] == 0 && Zeroed(p)[23] == 0;
  }
}
