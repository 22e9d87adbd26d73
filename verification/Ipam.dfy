/** Overlay address allocation for the devices of one tenant. */
module Ipam {
  import opened Wrappers
  import opened Net
  import opened Bits
  import Routes

  type Device = nat

  datatype IpamError = Exhausted | Misconfigured

  datatype Pool = Pool(v4: IpNet, v6: IpNet)

  /** The stored overlay addresses of a device, as integers. */
  datatype Row = Row(v4: Option<nat>, v6: Option<nat>)

  datatype Pair = Pair(v4: nat, v6: nat)

  type Rows = map<Device, Row>

  predicate WellFormed(p: Pool) { p.v4.addr.family == V4 && p.v6.addr.family == V6 }

  function Base4(p: Pool): nat { Routes.Network(p.v4).addr.bits }

  function Base6(p: Pool): nat { Routes.Network(p.v6).addr.bits }

  function HostBits(n: IpNet): nat { Width(n.addr.family) - n.len }

  function Size(p: Pool): nat { Span(p.v4) }

  function Used(rows: Rows): set<nat> {
    set d | d in rows && rows[d].v4.Some? :: rows[d].v4.value
  }

  predicate Taken(used: set<nat>, base: nat, off: nat) { base + off in used }

  function FirstFree(used: set<nat>, base: nat, size: nat, off: nat): Option<nat>
    decreases size - off
  {
    if off >= size - 1 then None
    else if !Taken(used, base, off) then Some(off)
    else FirstFree(used, base, size, off + 1)
  }

  function PairAt(p: Pool, off: nat): Pair {
    Pair(Base4(p) + off, Or(Base6(p), off))
  }

  function Existing(rows: Rows, d: Device): Option<Pair> {
    if d in rows && rows[d].v4.Some? && rows[d].v6.Some? then Some(Pair(rows[d].v4.value, rows[d].v6.value)) else None
  }

  /** A device the tenant has no row for is given addresses, but nothing is stored. */
  function Stored(rows: Rows, d: Device, pair: Pair): Rows {
    if d in rows then rows[d := Row(Some(pair.v4), Some(pair.v6))] else rows
  }

  function Allocating(p: Pool, rows: Rows, d: Device): (Rows, Result<Pair, IpamError>) {
    if !WellFormed(p) then (rows, Err(Misconfigured))
    else if Existing(rows, d).Some? then (rows, Ok(Existing(rows, d).value))
    else
      match FirstFree(Used(rows), Base4(p), Size(p), 2)
      case None => (rows, Err(Exhausted))
      case Some(off) => (Stored(rows, d, PairAt(p, off)), Ok(PairAt(p, off)))
  }

  class Devices {
    var rows: Rows

    constructor (rows: Rows)
      ensures this.rows == rows
    {
      this.rows := rows;
    }

    method Allocate(p: Pool, d: Device) returns (r: Result<Pair, IpamError>)
      modifies this
      ensures (rows, r) == Allocating(p, old(rows), d)
    {
      if p.v4.addr.family != V4 || p.v6.addr.family != V6 { return Err(Misconfigured); }
      var existing := Existing(rows, d);
      if existing.Some? { return Ok(existing.value); }
      var used := Used(rows);
      var base, size := Base4(p), Size(p);
      var chosen: Option<nat> := None;
      var off := 2;
      while off < size - 1
        invariant chosen == None && FirstFree(used, base, size, 2) == FirstFree(used, base, size, off)
        decreases size as int - off
      {
        if !Taken(used, base, off) {
          chosen := Some(off);
          break;
        }
        off := off + 1;
      }
      if chosen == None { return Err(Exhausted); }
      var pair := PairAt(p, chosen.value);
      if d in rows { rows := rows[d := Row(Some(pair.v4), Some(pair.v6))]; }
      r := Ok(pair);
    }
  }

  // ---------- one allocation ----------

  lemma {:induction false} FirstFreeExact(used: set<nat>, base: nat, size: nat, off: nat)
    ensures match FirstFree(used, base, size, off)
            case Some(f) =>
              && off <= f < size - 1 && !Taken(used, base, f)
              && forall o :: off <= o < f ==> Taken(used, base, o)
            case None => forall o :: off <= o < size - 1 ==> Taken(used, base, o)
    decreases size - off
  {
    if off < size - 1 && Taken(used, base, off) { FirstFreeExact(used, base, size, off + 1); }
  }

  lemma BlockFits(base: nat, s: nat, blocks: nat)
    requires s > 0 && base < blocks * s && base % s == 0
    ensures base + s <= blocks * s
  {
    var q := base / s;
    assert base == q * s;
    if q >= blocks { MulMonotone(blocks, q, s); }
    MulMonotone(q + 1, blocks, s);
  }

  lemma RoundDownFits(x: nat, s: nat, blocks: nat)
    requires s > 0 && x < blocks * s
    ensures x / s * s % s == 0 && x / s * s + s <= blocks * s
  {
    MultipleModulo(x / s, s);
    assert x / s * s <= x;
    BlockFits(x / s * s, s, blocks);
  }

  /** The whole IPv4 pool lies within 32 bits, so no candidate overflows. */
  lemma PoolFits(n: IpNet)
    ensures Routes.Network(n).addr.bits % Span(n) == 0
    ensures Routes.Network(n).addr.bits + Span(n) <= Pow2(Width(n.addr.family))
  {
    var w, s, blocks := Width(n.addr.family), Span(n), Pow2(n.len);
    assert blocks * s == Pow2(w) by { Pow2Adds(n.len, w - n.len); }
    RoundDownFits(n.addr.bits, s, blocks);
  }

  /** A new address is the lowest free host, never the network, the first or the last address, and in
      range; exhaustion is reported exactly when every such host is taken. */
  lemma LowestFree(p: Pool, rows: Rows, d: Device)
    requires WellFormed(p) && Existing(rows, d) == None
    ensures match Allocating(p, rows, d).1
            case Ok(pair) =>
              exists off: nat ::
                && Host(p, off) && pair == PairAt(p, off) && pair.v4 < Pow2(32) && pair.v4 !in Used(rows)
                && forall o :: 2 <= o < off ==> Taken(Used(rows), Base4(p), o)
            case Err(e) => e == Exhausted && forall o :: Host(p, o) ==> Taken(Used(rows), Base4(p), o)
  {
    var found := FirstFree(Used(rows), Base4(p), Size(p), 2);
    FirstFreeExact(Used(rows), Base4(p), Size(p), 2);
    if found.Some? {
      PoolFits(p.v4);
      assert Host(p, found.value);
    }
  }

  /** The host numbers the allocator can hand out. */
  predicate Host(p: Pool, off: nat) { 2 <= off < Size(p) - 1 }

  // ---------- runs ----------

  datatype Event = RowAdded(device: Device) | RowDeleted(device: Device) | Allocated(device: Device)

  function Step(p: Pool, rows: Rows, ev: Event): Rows {
    match ev
    case RowAdded(d) => if d in rows then rows else rows[d := Row(None, None)]
    case RowDeleted(d) => rows - {d}
    case Allocated(d) => Allocating(p, rows, d).0
  }

  function Run(p: Pool, evs: seq<Event>): Rows {
    if evs == [] then map[] else Step(p, Run(p, evs[..|evs| - 1]), evs[|evs| - 1])
  }

  predicate Issued(p: Pool, r: Row) {
    if r.v4 == None then r.v6 == None
    else
      var off: int := r.v4.value - Base4(p);
      off >= 0 && Host(p, off) && r.v6 == Some(Or(Base6(p), off))
  }

  ghost predicate Good(p: Pool, rows: Rows) {
    && (forall d :: d in rows ==> Issued(p, rows[d]))
    && (forall d, e :: d in rows && e in rows && d != e && rows[d].v4.Some? ==> rows[d].v4 != rows[e].v4)
  }

  lemma StoredGood(p: Pool, rows: Rows, d: Device, off: nat)
    requires Good(p, rows) && Host(p, off) && PairAt(p, off).v4 !in Used(rows)
    ensures Good(p, Stored(rows, d, PairAt(p, off)))
  {
    assert forall e :: e in rows && rows[e].v4.Some? ==> rows[e].v4.value in Used(rows);
  }

  lemma StepGood(p: Pool, rows: Rows, ev: Event)
    requires Good(p, rows)
    ensures Good(p, Step(p, rows, ev))
  {
    if ev.Allocated? && WellFormed(p) && Existing(rows, ev.device) == None {
      var found := FirstFree(Used(rows), Base4(p), Size(p), 2);
      FirstFreeExact(Used(rows), Base4(p), Size(p), 2);
      if found.Some? { StoredGood(p, rows, ev.device, found.value); }
    }
  }

  lemma {:induction false} RunGood(p: Pool, evs: seq<Event>)
    ensures Good(p, Run(p, evs))
  {
    if evs != [] {
      RunGood(p, evs[..|evs| - 1]);
      StepGood(p, Run(p, evs[..|evs| - 1]), evs[|evs| - 1]);
    }
  }

  /** In every run no two devices hold the same IPv4 address. */
  lemma DistinctV4(p: Pool, evs: seq<Event>, d: Device, e: Device)
    requires d != e && Existing(Run(p, evs), d).Some? && Existing(Run(p, evs), e).Some?
    ensures Existing(Run(p, evs), d).value.v4 != Existing(Run(p, evs), e).value.v4
  {
    RunGood(p, evs);
  }

  /** A device keeps its pair, and is given it again, for as long as its row is not deleted. */
  lemma {:induction false} PairStable(p: Pool, evs: seq<Event>, k: nat, d: Device)
    requires WellFormed(p) && k <= |evs| && Existing(Run(p, evs[..k]), d).Some?
    requires forall i :: k <= i < |evs| ==> evs[i] != RowDeleted(d)
    ensures Existing(Run(p, evs), d) == Existing(Run(p, evs[..k]), d)
    ensures Allocating(p, Run(p, evs), d) == (Run(p, evs), Ok(Existing(Run(p, evs[..k]), d).value))
    decreases |evs|
  {
    if k == |evs| {
      assert evs[..k] == evs;
    } else {
      var before := evs[..|evs| - 1];
      assert before[..k] == evs[..k];
      PairStable(p, before, k, d);
    }
  }

  // ---------- the mirrored IPv6 address ----------

  lemma MirrorAdds(p: Pool, off: nat)
    requires WellFormed(p) && Host(p, off) && Base6(p) % Size(p) == 0
    ensures Or(Base6(p), off) == Base6(p) + off
  {
    OrAdds(Base6(p), off, HostBits(p.v4));
  }

  lemma SmallPool(h: nat)
    ensures h <= 2 ==> Pow2(h) <= 4
    ensures h >= 3 ==> Pow2(h) >= 8
  {
    assert Pow2(1) == 2 && Pow2(2) == 4 && Pow2(3) == 8;
    if h >= 3 { Pow2Monotone(3, h); } else { Pow2Monotone(h, 2); }
  }

  /** Two hosts that the pool's IPv6 prefix would make one. */
  lemma Collision(p: Pool) returns (x: nat, y: nat)
    requires WellFormed(p) && HostBits(p.v4) >= 3 && Base6(p) % Size(p) != 0
    ensures Host(p, x) && Host(p, y) && x != y && Or(Base6(p), x) == Or(Base6(p), y)
  {
    var h := HostBits(p.v4);
    var k := LowBitSet(Base6(p), h);
    x := if k == 1 then 4 else 2;
    NoBitIn(k);
    y := SetBit(x, k);
    SetBitAdds(x, k);
    OrHides(Base6(p), x, k);
    SmallPool(h);
    assert Pow2(0) == 1 && Pow2(1) == 2;
    if k >= 2 {
      Pow2Monotone(k, h - 1);
      assert Pow2(h) == 2 * Pow2(h - 1);
    }
  }

  lemma NoBitIn(k: nat)
    ensures !HasBit(if k == 1 then 4 else 2, k)
  {
    if k >= 2 { ZeroHasNoBit(k - 2); }
  }

  /** Distinct hosts get distinct IPv6 addresses exactly when the pool's IPv6 network has no bit set
      where the IPv4 host part goes, or there is at most one host to give out. */
  lemma HostsMirrorExact(p: Pool)
    requires WellFormed(p)
    ensures (forall x, y :: Host(p, x) && Host(p, y) && x != y ==> Or(Base6(p), x) != Or(Base6(p), y)) <==> Clear(p)
  {
    SmallPool(HostBits(p.v4));
    if Base6(p) % Size(p) == 0 {
      forall x, y | Host(p, x) && Host(p, y) && x != y ensures Or(Base6(p), x) != Or(Base6(p), y) {
        MirrorAdds(p, x);
        MirrorAdds(p, y);
      }
    } else if HostBits(p.v4) >= 3 {
      var x, y := Collision(p);
    }
  }

  predicate Clear(p: Pool) { Base6(p) % Size(p) == 0 || HostBits(p.v4) <= 2 }

  /** Rows for devices 0 to n - 1, each given its addresses as it is added. */
  function Fill(n: nat): seq<Event> {
    if n == 0 then [] else Fill(n - 1) + [RowAdded(n - 1), Allocated(n - 1)]
  }

  ghost predicate Filled(p: Pool, rows: Rows, n: nat) {
    && (forall d :: d in rows <==> 0 <= d < n)
    && forall d :: d in rows ==> rows[d] == Row(Some(Base4(p) + d + 2), Some(Or(Base6(p), d + 2)))
  }

  lemma FillStep(p: Pool, rows: Rows, n: nat)
    requires WellFormed(p) && Filled(p, rows, n) && Host(p, n + 2)
    ensures Filled(p, Step(p, Step(p, rows, RowAdded(n)), Allocated(n)), n + 1)
  {
    var mid := Step(p, rows, RowAdded(n));
    FirstFreeExact(Used(mid), Base4(p), Size(p), 2);
    forall o | 2 <= o < n + 2 ensures Taken(Used(mid), Base4(p), o) {
      assert mid[o - 2].v4 == Some(Base4(p) + o);
    }
    assert !Taken(Used(mid), Base4(p), n + 2);
    assert FirstFree(Used(mid), Base4(p), Size(p), 2) == Some(n + 2);
  }

  /** Filling a pool hands out its hosts one after another. */
  lemma {:induction false} FillFills(p: Pool, n: nat)
    requires WellFormed(p) && (n > 0 ==> Host(p, n + 1))
    ensures Filled(p, Run(p, Fill(n)), n)
  {
    if n > 0 {
      FillFills(p, n - 1);
      FillStep(p, Run(p, Fill(n - 1)), n - 1);
      var all := Fill(n);
      assert all[..|all| - 1] == Fill(n - 1) + [RowAdded(n - 1)];
      assert all[..|all| - 1][..|all| - 2] == Fill(n - 1);
    }
  }

  /** Every host is some device's in some run. */
  lemma HostReached(p: Pool, off: nat, n: nat)
    requires WellFormed(p) && Host(p, off) && off <= n && Host(p, n)
    ensures Existing(Run(p, Fill(n - 1)), off - 2) == Some(PairAt(p, off))
  {
    FillFills(p, n - 1);
  }

  ghost predicate DistinctV6(p: Pool, rows: Rows) {
    forall d, e :: Existing(rows, d).Some? && Existing(rows, e).Some? && d != e ==>
                     Existing(rows, d).value.v6 != Existing(rows, e).value.v6
  }

  lemma GoodDistinct(p: Pool, rows: Rows, d: Device, e: Device)
    requires WellFormed(p) && Clear(p) && Good(p, rows)
    requires Existing(rows, d).Some? && Existing(rows, e).Some? && d != e
    ensures Existing(rows, d).value.v6 != Existing(rows, e).value.v6
  {
    assert Issued(p, rows[d]) && Issued(p, rows[e]);
    var x: nat, y: nat := rows[d].v4.value - Base4(p), rows[e].v4.value - Base4(p);
    HostsMirrorExact(p);
    assert Host(p, x) && Host(p, y) && x != y;
  }

  /** In every run no two devices hold the same IPv6 address, exactly when the pool's IPv6 network is
      clear of the IPv4 host bits or there is at most one host to give out. */
  lemma DistinctV6Exact(p: Pool)
    requires WellFormed(p)
    ensures (forall evs :: DistinctV6(p, Run(p, evs))) <==> Clear(p)
  {
    if Clear(p) {
      forall evs ensures DistinctV6(p, Run(p, evs)) {
        RunGood(p, evs);
        forall d, e | Existing(Run(p, evs), d).Some? && Existing(Run(p, evs), e).Some? && d != e
          ensures Existing(Run(p, evs), d).value.v6 != Existing(Run(p, evs), e).value.v6
        {
          GoodDistinct(p, Run(p, evs), d, e);
        }
      }
    } else {
      var x, y := Collision(p);
      var n := if x < y then y else x;
      HostReached(p, x, n);
      HostReached(p, y, n);
      assert !DistinctV6(p, Run(p, Fill(n - 1)));
    }
  }

  // ---------- staying inside the IPv6 pool ----------

  predicate Inside(p: Pool, v6: nat) { v6 < Pow2(128) && p.v6.addr.family == V6 && Contains(p.v6, Address(V6, v6)) }

  /** Each IPv4 host bit that sticks out of the IPv6 host part, and that some host has, is set in the
      IPv6 network already. */
  ghost predicate Covered(p: Pool) {
    forall k :: HostBits(p.v6) <= k < HostBits(p.v4) && (k == 1 || HostBits(p.v4) >= 3) ==> HasBit(Base6(p), k)
  }

  lemma MirrorFits(p: Pool, off: nat)
    requires WellFormed(p) && Host(p, off)
    ensures off < Pow2(HostBits(p.v4)) && Or(Base6(p), off) < Pow2(128)
  {
    Pow2Monotone(HostBits(p.v4), 128);
    OrFits(Base6(p), off, 128);
  }

  lemma {:induction false} SameBlockShift(x: nat, bits: nat, base: nat, h: nat)
    requires SameBlock(base, bits, Pow2(h))
    ensures SameBlock(x, bits, Pow2(h)) <==> Shift(x, h) == Shift(base, h)
  {
    ShiftDivides(x, h);
    ShiftDivides(base, h);
  }

  /** One host stays inside exactly when its high bits are the network's already. */
  lemma HostInsideExact(p: Pool, off: nat)
    requires WellFormed(p) && Host(p, off)
    ensures Inside(p, Or(Base6(p), off)) <==> BitsIn(Shift(off, HostBits(p.v6)), Shift(Base6(p), HostBits(p.v6)))
  {
    var h6 := HostBits(p.v6);
    MirrorFits(p, off);
    Routes.RoundedDown(p.v6.addr.bits, Span(p.v6));
    SameBlockShift(Or(Base6(p), off), p.v6.addr.bits, Base6(p), h6);
    ShiftOr(Base6(p), off, h6);
    OrAbsorbsExact(Shift(Base6(p), h6), Shift(off, h6));
  }

  lemma CoveredBit(p: Pool, off: nat, k: nat)
    requires WellFormed(p) && Covered(p) && Host(p, off) && k >= HostBits(p.v6) && HasBit(off, k)
    ensures HasBit(Base6(p), k)
  {
    MirrorFits(p, off);
    BitsBelow(off, HostBits(p.v4), k);
    if HostBits(p.v4) <= 2 { OnlyHostTwo(p, off, k); }
  }

  lemma CoveredInside(p: Pool, off: nat)
    requires WellFormed(p) && Covered(p) && Host(p, off)
    ensures Inside(p, Or(Base6(p), off))
  {
    var h6 := HostBits(p.v6);
    HostInsideExact(p, off);
    forall k: nat | HasBit(Shift(off, h6), k) ensures HasBit(Shift(Base6(p), h6), k) {
      ShiftBit(off, h6, k);
      ShiftBit(Base6(p), h6, k);
      CoveredBit(p, off, k + h6);
    }
  }

  lemma OnlyHostTwo(p: Pool, off: nat, k: nat)
    requires Host(p, off) && HostBits(p.v4) <= 2 && HasBit(off, k)
    ensures k == 1
  {
    SmallPool(HostBits(p.v4));
    assert off == 2;
    if k >= 2 { ZeroHasNoBit(k - 2); }
  }

  /** A host with a given bit. */
  function HostWith(k: nat): nat { if k == 0 then 3 else Pow2(k) }

  lemma HostWithBit(p: Pool, k: nat)
    requires k < HostBits(p.v4) && (k == 1 || HostBits(p.v4) >= 3)
    ensures Host(p, HostWith(k)) && HasBit(HostWith(k), k)
  {
    var h := HostBits(p.v4);
    PowerHasBit(k);
    SmallPool(h);
    assert Pow2(1) == 2 && Pow2(2) == 4;
    if h == 2 { assert Size(p) == 4; }
    if k >= 2 {
      Pow2Monotone(2, k);
      Pow2Monotone(k, h - 1);
      assert Pow2(h) == 2 * Pow2(h - 1);
    }
  }

  ghost predicate AllInside(p: Pool, rows: Rows) {
    forall d :: Existing(rows, d).Some? ==> Inside(p, Existing(rows, d).value.v6)
  }

  lemma UncoveredEscapes(p: Pool, k: nat)
    requires WellFormed(p) && HostBits(p.v6) <= k < HostBits(p.v4) && (k == 1 || HostBits(p.v4) >= 3)
    requires !HasBit(Base6(p), k)
    ensures Host(p, HostWith(k)) && !Inside(p, Or(Base6(p), HostWith(k)))
  {
    var h6 := HostBits(p.v6);
    HostWithBit(p, k);
    HostInsideExact(p, HostWith(k));
    ShiftBit(HostWith(k), h6, k - h6);
    ShiftBit(Base6(p), h6, k - h6);
  }

  lemma GoodInside(p: Pool, rows: Rows, d: Device)
    requires WellFormed(p) && Covered(p) && Good(p, rows) && Existing(rows, d).Some?
    ensures Inside(p, Existing(rows, d).value.v6)
  {
    assert Issued(p, rows[d]);
    CoveredInside(p, rows[d].v4.value - Base4(p));
  }

  /** In every run every IPv6 address lies inside the pool exactly when that is so. */
  lemma InsideExact(p: Pool)
    requires WellFormed(p)
    ensures (forall evs :: AllInside(p, Run(p, evs))) <==> Covered(p)
  {
    if Covered(p) {
      forall evs ensures AllInside(p, Run(p, evs)) {
        RunGood(p, evs);
        forall d | Existing(Run(p, evs), d).Some? ensures Inside(p, Existing(Run(p, evs), d).value.v6) {
          GoodInside(p, Run(p, evs), d);
        }
      }
    } else {
      var k :| HostBits(p.v6) <= k < HostBits(p.v4) && (k == 1 || HostBits(p.v4) >= 3) && !HasBit(Base6(p), k);
      UncoveredEscapes(p, k);
      HostReached(p, HostWith(k), HostWith(k));
      assert !AllInside(p, Run(p, Fill(HostWith(k) - 1)));
    }
  }

  lemma NestedMultiple(base: nat, q: nat, span: nat, m: nat, s: nat)
    requires s > 0 && base == q * span && span == m * s
    ensures base % s == 0
  {
    assert base == (q * m) * s;
    MultipleModulo(q * m, s);
  }

  /** An IPv6 host part at least as wide as the IPv4 one is enough. */
  lemma WideEnough(p: Pool)
    requires WellFormed(p) && HostBits(p.v6) >= HostBits(p.v4)
    ensures Base6(p) % Size(p) == 0 && Size(p) <= Span(p.v6)
  {
    var a, b := HostBits(p.v4), HostBits(p.v6);
    Pow2Monotone(a, b);
    assert Pow2(b) == Pow2(b - a) * Pow2(a) by { Pow2Adds(b - a, a); }
    var span, q := Span(p.v6), p.v6.addr.bits / Span(p.v6);
    NestedMultiple(Base6(p), q, span, Pow2(b - a), Pow2(a));
  }

  /** Then no two devices share an IPv6 address, and every one lies inside the pool. */
  lemma MirrorInPool(p: Pool, evs: seq<Event>)
    requires WellFormed(p) && HostBits(p.v6) >= HostBits(p.v4)
    ensures DistinctV6(p, Run(p, evs)) && AllInside(p, Run(p, evs))
  {
    WideEnough(p);
    DistinctV6Exact(p);
    InsideExact(p);
  }
}
