/** IP addresses, CIDR prefixes and what it means for one to contain the other. */
module Net {

  datatype Family = V4 | V6

  function Width(f: Family): nat {
    if f.V4? then 32 else 128
  }

  function Pow2(n: nat): (r: nat)
    ensures r > 0
  {
    if n == 0 then 1 else 2 * Pow2(n - 1)
  }

  lemma {:induction false} Pow2Adds(m: nat, n: nat)
    ensures Pow2(m + n) == Pow2(m) * Pow2(n)
  {
    if m > 0 {
      Pow2Adds(m - 1, n);
      calc {
        Pow2(m + n);
        2 * (Pow2(m - 1) * Pow2(n));
        (2 * Pow2(m - 1)) * Pow2(n);
      }
    }
  }

  lemma {:induction false} Pow2Monotone(m: nat, n: nat)
    requires m <= n
    ensures Pow2(m) <= Pow2(n)
    decreases n
  {
    if m < n { Pow2Monotone(m, n - 1); }
  }

  datatype Address = Address(family: Family, bits: nat)

  type Ip = a: Address | a.bits < Pow2(Width(a.family)) witness Address(V4, 0)

  datatype Cidr = Cidr(addr: Ip, len: nat)

  /** A prefix may carry host bits, as `10.1.2.3/8` does. */
  type IpNet = c: Cidr | c.len <= Width(c.addr.family) witness Cidr(Address(V4, 0), 0)

  /** The number of addresses a prefix of this length spans. */
  function Span(n: IpNet): (r: nat)
    ensures r > 0
  {
    Pow2(Width(n.addr.family) - n.len)
  }

  predicate SameBlock(x: nat, y: nat, size: nat)
    requires size > 0
  {
    x / size == y / size
  }

  predicate BetweenEnds(x: nat, y: nat, size: nat)
    requires size > 0
  {
    y / size * size <= x <= y / size * size + size - 1
  }

  /** An address is inside a prefix when they share the family and the leading `len` bits. */
  predicate Contains(n: IpNet, a: Ip) {
    a.family == n.addr.family && SameBlock(a.bits, n.addr.bits, Span(n))
  }

  /** The same question asked of the first and last address of the range. */
  predicate InRange(a: Ip, n: IpNet) {
    a.family == n.addr.family && BetweenEnds(a.bits, n.addr.bits, Span(n))
  }

  lemma MulMonotone(a: nat, b: nat, s: nat)
    requires a <= b
    ensures a * s <= b * s
  {
  }

  lemma BlockEnds(x: nat, y: nat, size: nat)
    requires size > 0
    ensures SameBlock(x, y, size) <==> BetweenEnds(x, y, size)
  {
    var p, q := x / size, y / size;
    assert x == p * size + x % size;
    if q < p { MulMonotone(q + 1, p, size); }
    if p < q { MulMonotone(p + 1, q, size); }
  }

  lemma InRangeIsContains(a: Ip, n: IpNet)
    ensures InRange(a, n) <==> Contains(n, a)
  {
    BlockEnds(a.bits, n.addr.bits, Span(n));
  }
}
