/** The longest-prefix routing table shared by gateway and agent. */
module Routes {
  import opened Wrappers
  import opened Net

  type SessionId = nat

  /** A prefix with its host bits cleared, which is how the table keys it. */
  function Network(n: IpNet): (r: IpNet) {
    MulMonotone(0, n.addr.bits / Span(n), Span(n));
    assert n.addr.bits / Span(n) * Span(n) <= n.addr.bits;
    Cidr(Address(n.addr.family, n.addr.bits / Span(n) * Span(n)), n.len)
  }

  type Table = map<IpNet, SessionId>

  ghost predicate Canonical(t: Table) {
    forall n :: n in t ==> Network(n) == n
  }

  lemma RoundedDown(x: nat, s: nat)
    requires s > 0
    ensures x / s * s / s == x / s
  {
    var q := x / s;
    BlockEnds(q * s, x, s);
    MulMonotone(q, q, s);
  }

  /** Clearing host bits changes no membership, and a cleared prefix contains an address exactly when
      clearing the address to that length gives the prefix. */
  lemma NetworkContains(n: IpNet, a: Ip)
    ensures Network(Network(n)) == Network(n)
    ensures Contains(Network(n), a) <==> Contains(n, a)
    ensures a.family == n.addr.family ==> (Contains(n, a) <==> Network(Cidr(a, n.len)) == Network(n))
  {
    var s := Span(n);
    RoundedDown(n.addr.bits, s);
    RoundedDown(a.bits, s);
    assert Span(Network(n)) == s;
    if a.family == n.addr.family {
      assert Span(Cidr(a, n.len)) == s;
      if a.bits / s * s == n.addr.bits / s * s { assert a.bits / s == n.addr.bits / s; }
    }
  }

  function Inserted(t: Table, n: IpNet, s: SessionId): Table { t[Network(n) := s] }

  function Dropped(t: Table, n: IpNet): Table { t - {Network(n)} }

  function WithoutSession(t: Table, s: SessionId): Table {
    map n | n in t && t[n] != s :: t[n]
  }

  function LookupFrom(t: Table, dst: Ip, len: nat): Option<SessionId>
    requires len <= Width(dst.family)
  {
    var key := Network(Cidr(dst, len));
    if key in t then Some(t[key]) else if len == 0 then None else LookupFrom(t, dst, len - 1)
  }

  function LongestMatch(t: Table, dst: Ip): Option<SessionId> {
    LookupFrom(t, dst, Width(dst.family))
  }

  // ---------- longest match ----------

  /** `n` is an entry containing `dst` and no entry containing it is longer. */
  ghost predicate Best(t: Table, dst: Ip, n: IpNet) {
    n in t && Contains(n, dst) && forall m :: m in t && Contains(m, dst) ==> m.len <= n.len
  }

  lemma {:induction false} ScanFinds(t: Table, dst: Ip, len: nat)
    requires Canonical(t) && len <= Width(dst.family)
    requires forall m :: m in t && Contains(m, dst) ==> m.len <= len
    ensures match LookupFrom(t, dst, len)
            case Some(s) => exists n :: Best(t, dst, n) && t[n] == s
            case None => forall m :: m in t ==> !Contains(m, dst)
    decreases len
  {
    var key := Network(Cidr(dst, len));
    NetworkContains(Cidr(dst, len), dst);
    if key in t {
      assert Best(t, dst, key);
    } else {
      forall m | m in t && Contains(m, dst) ensures m.len < len {
        NetworkContains(m, dst);
        assert m.len == len ==> m == key;
      }
      if len > 0 { ScanFinds(t, dst, len - 1); }
    }
  }

  lemma BestUnique(t: Table, dst: Ip, m: IpNet, n: IpNet)
    requires Canonical(t) && Best(t, dst, m) && Best(t, dst, n)
    ensures m == n
  {
    NetworkContains(m, dst);
    NetworkContains(n, dst);
  }

  /** A lookup answers with the entry of the longest prefix containing the destination, and with
      nothing only if no entry contains it. */
  lemma LookupExact(t: Table, dst: Ip)
    requires Canonical(t)
    ensures forall n :: Best(t, dst, n) ==> LongestMatch(t, dst) == Some(t[n])
    ensures LongestMatch(t, dst).Some? ==> exists n :: Best(t, dst, n) && t[n] == LongestMatch(t, dst).value
    ensures LongestMatch(t, dst) == None <==> forall m :: m in t ==> !Contains(m, dst)
  {
    forall m | m in t && Contains(m, dst) ensures m.len <= Width(dst.family) {}
    ScanFinds(t, dst, Width(dst.family));
    forall n | Best(t, dst, n) ensures LongestMatch(t, dst) == Some(t[n]) {
      assert n in t && Contains(n, dst);
      var b :| Best(t, dst, b) && t[b] == LongestMatch(t, dst).value;
      BestUnique(t, dst, n, b);
    }
  }

  /** Taking a session's routes away leaves every destination another session won. */
  lemma RemovalKeepsOthers(t: Table, gone: SessionId, dst: Ip)
    requires Canonical(t)
    ensures Canonical(WithoutSession(t, gone))
    ensures LongestMatch(WithoutSession(t, gone), dst) != Some(gone)
    ensures LongestMatch(t, dst) != Some(gone) ==> LongestMatch(WithoutSession(t, gone), dst) == LongestMatch(t, dst)
  {
    var t' := WithoutSession(t, gone);
    LookupExact(t, dst);
    LookupExact(t', dst);
    if LongestMatch(t, dst).Some? && LongestMatch(t, dst).value != gone {
      var n :| Best(t, dst, n) && t[n] == LongestMatch(t, dst).value;
      assert Best(t', dst, n);
    }
  }

  // ---------- the table object ----------

  class RouteTable {
    var table: Table

    constructor ()
      ensures table == map[]
    {
      table := map[];
    }

    method Insert(n: IpNet, s: SessionId)
      modifies this
      ensures table == Inserted(old(table), n, s)
    {
      table := table[Network(n) := s];
    }

    method Remove(n: IpNet)
      modifies this
      ensures table == Dropped(old(table), n)
    {
      table := table - {Network(n)};
    }

    /** Collect the session's entries, then take them out one by one. */
    method RemoveSession(s: SessionId)
      modifies this
      ensures table == WithoutSession(old(table), s)
    {
      var victims := set n | n in table && table[n] == s;
      while victims != {}
        invariant forall n :: n in victims ==> n in table && n in old(table) && old(table)[n] == s
        invariant forall n :: n in table <==> n in old(table) && (old(table)[n] != s || n in victims)
        invariant forall n :: n in table ==> table[n] == old(table)[n]
        decreases |victims|
      {
        var n :| n in victims;
        table := table - {n};
        victims := victims - {n};
      }
    }

    method Lookup(dst: Ip) returns (r: Option<SessionId>)
      ensures r == LongestMatch(table, dst)
    {
      var len: nat := Width(dst.family);
      while len > 0 && Network(Cidr(dst, len)) !in table
        invariant len <= Width(dst.family) && LongestMatch(table, dst) == LookupFrom(table, dst, len)
      {
        len := len - 1;
      }
      var key := Network(Cidr(dst, len));
      r := if key in table then Some(table[key]) else None;
    }
  }
}
