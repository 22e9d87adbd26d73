/** The gateway's session lifecycle: offers, revocation lists, closes, route updates and forwarding,
    each handler one step. Certificate and CRL signatures, key agreement and the flow verdict are inputs. */
module Gateway {
  import opened Wrappers
  import opened Net
  import opened Routes

  type Serial = nat

  datatype Meta = Meta(device: nat, tenant: nat, serial: Serial, v4: Option<IpNet>, v6: Option<IpNet>,
                       advertised: seq<IpNet>)

  datatype Crl = Crl(version: nat, serials: set<Serial>)

  /** Ids in the session table, routes, session metadata and the CRL in force. */
  datatype State = State(table: set<SessionId>, routes: Table, meta: map<SessionId, Meta>, crl: Crl)

  /** A source is a session's own if it is one of its addresses or lies in a network it advertises. */
  predicate OwnsSource(m: Meta, src: Ip) {
    (m.v4.Some? && m.v4.value.addr == src) || (m.v6.Some? && m.v6.value.addr == src)
    || exists n | n in m.advertised :: Contains(n, src)
  }

  function HostRoute(n: Option<IpNet>, len: nat): seq<IpNet> {
    if n.Some? && len <= Width(n.value.addr.family) then [Cidr(n.value.addr, len)] else []
  }

  function MetaRoutes(m: Meta): seq<IpNet> {
    HostRoute(m.v4, 32) + HostRoute(m.v6, 128) + m.advertised
  }

  // ---------- handlers ----------

  function InsertAll(t: Table, nets: seq<IpNet>, s: SessionId): Table {
    if nets == [] then t else Inserted(InsertAll(t, nets[..|nets| - 1], s), nets[|nets| - 1], s)
  }

  /** `acceptable` covers what is checked before anything changes: the id, the certificate and its
      chain, the suite, the initiator index, the receiver index and the key agreement. */
  datatype Offer = Offer(id: SessionId, acceptable: bool, device: nat, tenant: Option<nat>, serial: Serial,
                         v4: Option<IpNet>, v6: Option<IpNet>, advertised: seq<IpNet>)

  function MetaOf(o: Offer): Meta
    requires o.tenant.Some?
  {
    Meta(o.device, o.tenant.value, o.serial, o.v4, o.v6, o.advertised)
  }

  function Accepting(g: State, o: Offer): State {
    if !o.acceptable || o.serial in g.crl.serials then g
    else if o.tenant == None then g.(table := g.table + {o.id})
    else g.(table := g.table + {o.id}, routes := InsertAll(g.routes, MetaRoutes(MetaOf(o)), o.id),
            meta := g.meta[o.id := MetaOf(o)])
  }

  function Closing(g: State, id: SessionId): State {
    if id !in g.table then g
    else g.(table := g.table - {id}, routes := WithoutSession(g.routes, id), meta := g.meta - {id})
  }

  function ClosingAll(g: State, ids: set<SessionId>): State {
    var gone := ids * g.table;
    g.(table := g.table - gone, routes := map n | n in g.routes && g.routes[n] !in gone :: g.routes[n],
       meta := g.meta - gone)
  }

  function RevokedIds(g: State): set<SessionId> {
    set id | id in g.meta && g.meta[id].serial in g.crl.serials
  }

  /** An unverifiable list changes nothing, an older one is ignored; any other replaces the one in
      force and closes what it revokes. */
  function ApplyingCrl(g: State, verified: Option<Crl>): State {
    if verified == None || verified.value.version < g.crl.version then g
    else var g' := g.(crl := verified.value); ClosingAll(g', RevokedIds(g'))
  }

  function ApplyingRoutes(t: Table, id: SessionId, nets: seq<Option<IpNet>>, remove: bool): Table {
    if nets == [] then t else
    var before := ApplyingRoutes(t, id, nets[..|nets| - 1], remove);
    match nets[|nets| - 1]
    case None => before
    case Some(n) => if remove then Dropped(before, n) else Inserted(before, n, id)
  }

  datatype Flow = Flow(src: Ip, dst: Ip)

  datatype Outcome = Relayed(to: SessionId) | Egressed | Denied | Discarded(reason: string)

  function DestinationDevice(g: State, dst: Ip): Option<nat> {
    match LongestMatch(g.routes, dst)
    case Some(s) => if s in g.meta then Some(g.meta[s].device) else None
    case None => None
  }

  predicate External(overlay: seq<IpNet>, dst: Ip) {
    !exists n | n in overlay :: Contains(n, dst)
  }

  function HandleIp(g: State, overlay: seq<IpNet>, sid: SessionId, flow: Option<Flow>,
                    allow: (SessionId, Meta, Option<nat>, Flow) -> bool): Outcome {
    if flow == None then Discarded("malformed")
    else if sid !in g.meta then Discarded("unknown_session")
    else if !OwnsSource(g.meta[sid], flow.value.src) then Discarded("spoofed_source")
    else if !allow(sid, g.meta[sid], DestinationDevice(g, flow.value.dst), flow.value) then Denied
    else
      match LongestMatch(g.routes, flow.value.dst)
      case Some(target) =>
        if target == sid then Discarded("hairpin")
        else if target in g.table then Relayed(target)
        else Discarded("no_route")
      case None => if External(overlay, flow.value.dst) then Egressed else Discarded("no_route")
  }

  /** Packets from the kernel go to the session their destination routes to, if it is still there. */
  function Ingress(g: State, flow: Option<Flow>): Outcome {
    if flow == None then Discarded("malformed")
    else
      match LongestMatch(g.routes, flow.value.dst)
      case Some(target) => if target in g.table then Relayed(target) else Discarded("no_route")
      case None => Discarded("no_route")
  }

  // ---------- the gateway object ----------

  class GatewayState {
    var table: set<SessionId>
    const routes: RouteTable
    var meta: map<SessionId, Meta>
    var crl: Crl

    constructor (crl: Crl)
      ensures fresh(routes) && View() == State({}, map[], map[], crl)
    {
      table := {};
      routes := new RouteTable();
      meta := map[];
      this.crl := crl;
    }

    function View(): State
      reads this, routes
    {
      State(table, routes.table, meta, crl)
    }

    method InstallRoutes(nets: seq<IpNet>, id: SessionId)
      modifies routes
      ensures routes.table == InsertAll(old(routes.table), nets, id)
    {
      for i := 0 to |nets|
        invariant routes.table == InsertAll(old(routes.table), nets[..i], id)
      {
        assert nets[..i + 1][..i] == nets[..i];
        routes.Insert(nets[i], id);
      }
      assert nets[..|nets|] == nets;
    }

    method AcceptOffer(o: Offer)
      modifies this, routes
      ensures View() == Accepting(old(View()), o)
    {
      if !o.acceptable || o.serial in crl.serials { return; }
      table := table + {o.id};
      if o.tenant == None { return; }
      InstallRoutes(MetaRoutes(MetaOf(o)), o.id);
      meta := meta[o.id := MetaOf(o)];
    }

    method CloseSession(id: SessionId)
      modifies this, routes
      ensures View() == Closing(old(View()), id)
    {
      if id !in table { return; }
      table := table - {id};
      routes.RemoveSession(id);
      meta := meta - {id};
    }

    method ApplyCrl(verified: Option<Crl>)
      modifies this, routes
      ensures View() == ApplyingCrl(old(View()), verified)
    {
      if verified == None { return; }
      if verified.value.version < crl.version { return; }
      crl := verified.value;
      ghost var start := View();
      var revoked := RevokedIds(View());
      assert View() == ClosingAll(start, {});
      while revoked != {}
        invariant View() == ClosingAll(start, RevokedIds(start) - revoked) && revoked <= RevokedIds(start)
        decreases |revoked|
      {
        var id :| id in revoked;
        CloseOneMore(start, RevokedIds(start) - revoked, id);
        assert RevokedIds(start) - (revoked - {id}) == (RevokedIds(start) - revoked) + {id};
        CloseSession(id);
        revoked := revoked - {id};
      }
      assert RevokedIds(start) - {} == RevokedIds(start);
    }

    method ApplyRoutes(id: SessionId, nets: seq<Option<IpNet>>, remove: bool)
      modifies routes
      ensures View() == old(View()).(routes := ApplyingRoutes(old(routes.table), id, nets, remove))
    {
      for i := 0 to |nets|
        invariant routes.table == ApplyingRoutes(old(routes.table), id, nets[..i], remove)
      {
        assert nets[..i + 1][..i] == nets[..i];
        if nets[i].Some? {
          if remove { routes.Remove(nets[i].value); } else { routes.Insert(nets[i].value, id); }
        }
      }
      assert nets[..|nets|] == nets;
    }
  }

  lemma CloseOneMore(g: State, ids: set<SessionId>, id: SessionId)
    requires id !in ids
    ensures Closing(ClosingAll(g, ids), id) == ClosingAll(g, ids + {id})
  {
    var l, r := Closing(ClosingAll(g, ids), id), ClosingAll(g, ids + {id});
    if id in g.table {
      assert (ids + {id}) * g.table == ids * g.table + {id};
    } else {
      assert (ids + {id}) * g.table == ids * g.table;
    }
    assert l.table == r.table;
    assert l.meta == r.meta;
    assert l.routes == r.routes;
  }

  // ---------- runs ----------

  datatype Event =
    | Offered(offer: Offer)
    | Closed(id: SessionId)
    | Revocations(verified: Option<Crl>)
    | RouteUpdate(id: SessionId, nets: seq<Option<IpNet>>, remove: bool)

  function Step(g: State, ev: Event): State {
    match ev
    case Offered(o) => Accepting(g, o)
    case Closed(id) => Closing(g, id)
    case Revocations(verified) => ApplyingCrl(g, verified)
    case RouteUpdate(id, nets, remove) => g.(routes := ApplyingRoutes(g.routes, id, nets, remove))
  }

  function Run(crl: Crl, evs: seq<Event>): State {
    if evs == [] then State({}, map[], map[], crl) else Step(Run(crl, evs[..|evs| - 1]), evs[|evs| - 1])
  }

  ghost predicate Good(g: State) {
    && Canonical(g.routes) && g.meta.Keys <= g.table
    && forall id :: id in g.meta ==> g.meta[id].serial !in g.crl.serials
  }

  lemma {:induction false} InsertAllCanonical(t: Table, nets: seq<IpNet>, s: SessionId)
    requires Canonical(t)
    ensures Canonical(InsertAll(t, nets, s))
  {
    if nets != [] {
      InsertAllCanonical(t, nets[..|nets| - 1], s);
      NetworkContains(nets[|nets| - 1], nets[|nets| - 1].addr);
    }
  }

  lemma {:induction false} RoutesCanonical(t: Table, id: SessionId, nets: seq<Option<IpNet>>, remove: bool)
    requires Canonical(t)
    ensures Canonical(ApplyingRoutes(t, id, nets, remove))
  {
    if nets != [] {
      RoutesCanonical(t, id, nets[..|nets| - 1], remove);
      var last := nets[|nets| - 1];
      if last.Some? { NetworkContains(last.value, last.value.addr); }
    }
  }

  lemma StepGood(g: State, ev: Event)
    requires Good(g)
    ensures Good(Step(g, ev)) && g.crl.version <= Step(g, ev).crl.version
  {
    match ev
    case Offered(o) => if o.tenant.Some? { InsertAllCanonical(g.routes, MetaRoutes(MetaOf(o)), o.id); }
    case RouteUpdate(id, nets, remove) => RoutesCanonical(g.routes, id, nets, remove);
    case _ =>
  }

  lemma {:induction false} RunGood(crl: Crl, evs: seq<Event>)
    ensures Good(Run(crl, evs))
  {
    if evs != [] {
      RunGood(crl, evs[..|evs| - 1]);
      StepGood(Run(crl, evs[..|evs| - 1]), evs[|evs| - 1]);
    }
  }

  /** No session with metadata is ever revoked by the list in force, and only such a session's packets
      travel, from sources that are its own. */
  lemma RevokedNeverForwarded(crl: Crl, evs: seq<Event>, overlay: seq<IpNet>, sid: SessionId, flow: Option<Flow>,
                              allow: (SessionId, Meta, Option<nat>, Flow) -> bool)
    ensures var g := Run(crl, evs);
            && (forall id :: id in g.meta ==> id in g.table && g.meta[id].serial !in g.crl.serials)
            && (HandleIp(g, overlay, sid, flow, allow).Relayed? || HandleIp(g, overlay, sid, flow, allow).Egressed? ==>
                  && flow.Some? && sid in g.meta && g.meta[sid].serial !in g.crl.serials && sid in g.table
                  && OwnsSource(g.meta[sid], flow.value.src))
  {
    RunGood(crl, evs);
  }

  /** The version in force never goes back. */
  lemma {:induction false} VersionNeverDecreases(crl: Crl, evs: seq<Event>, k: nat)
    requires k <= |evs|
    ensures Run(crl, evs[..k]).crl.version <= Run(crl, evs).crl.version
  {
    if k == |evs| {
      assert evs[..k] == evs;
    } else {
      var before := evs[..|evs| - 1];
      VersionNeverDecreases(crl, before, k);
      assert before[..k] == evs[..k];
      RunGood(crl, before);
      StepGood(Run(crl, before), evs[|evs| - 1]);
    }
  }

  /** A verified list at least as new as every other, and the last of its version, is the one in force. */
  lemma {:induction false} NewestInForce(crl: Crl, evs: seq<Event>, k: nat, c: Crl)
    requires k < |evs| && evs[k] == Revocations(Some(c)) && crl.version <= c.version
    requires forall i :: 0 <= i < |evs| && evs[i].Revocations? && evs[i].verified.Some? ==>
                           if i <= k then evs[i].verified.value.version <= c.version
                           else evs[i].verified.value.version < c.version
    ensures Run(crl, evs).crl == c
  {
    var before := evs[..|evs| - 1];
    if k < |evs| - 1 { NewestInForce(crl, before, k, c); } else { OlderInForce(crl, before, c.version); }
  }

  lemma {:induction false} OlderInForce(crl: Crl, evs: seq<Event>, version: nat)
    requires crl.version <= version
    requires forall i :: 0 <= i < |evs| && evs[i].Revocations? && evs[i].verified.Some? ==>
                           evs[i].verified.value.version <= version
    ensures Run(crl, evs).crl.version <= version
  {
    if evs != [] { OlderInForce(crl, evs[..|evs| - 1], version); }
  }

  // ---------- forwarding follows the longest prefix ----------

  /** A packet is relayed to `t` exactly when the sender is known and owns the source, the flow is
      allowed, and the longest prefix containing the destination belongs to another session in the table. */
  lemma RelayExact(g: State, overlay: seq<IpNet>, sid: SessionId, flow: Flow, t: SessionId,
                   allow: (SessionId, Meta, Option<nat>, Flow) -> bool)
    requires Good(g)
    ensures HandleIp(g, overlay, sid, Some(flow), allow) == Relayed(t) <==>
            && sid in g.meta && OwnsSource(g.meta[sid], flow.src)
            && allow(sid, g.meta[sid], DestinationDevice(g, flow.dst), flow)
            && t != sid && t in g.table && exists n :: Best(g.routes, flow.dst, n) && g.routes[n] == t
    ensures HandleIp(g, overlay, sid, Some(flow), allow) == Egressed <==>
            && sid in g.meta && OwnsSource(g.meta[sid], flow.src) && allow(sid, g.meta[sid], None, flow)
            && (forall n :: n in g.routes ==> !Contains(n, flow.dst))
            && (forall n :: n in overlay ==> !Contains(n, flow.dst))
    ensures Ingress(g, Some(flow)) == Relayed(t) <==>
            t in g.table && exists n :: Best(g.routes, flow.dst, n) && g.routes[n] == t
  {
    LookupExact(g.routes, flow.dst);
  }

  // ---------- closing ----------

  predicate Gone(g: State, id: SessionId) { id !in g.table && id !in g.meta }

  lemma {:induction false} GoneStays(crl: Crl, evs: seq<Event>, k: nat, id: SessionId)
    requires k < |evs| && evs[k] == Closed(id)
    requires forall i :: k < i < |evs| && evs[i].Offered? ==> evs[i].offer.id != id
    ensures Gone(Run(crl, evs), id)
  {
    var before := evs[..|evs| - 1];
    RunGood(crl, before);
    if k < |evs| - 1 { GoneStays(crl, before, k, id); }
  }

  /** Once a session is closed, and its id not offered again, nothing from it is forwarded and nothing
      is sent to it, whatever routes name it. */
  lemma ClosedStaysSilent(crl: Crl, evs: seq<Event>, k: nat, id: SessionId, overlay: seq<IpNet>, from: SessionId,
                          flow: Option<Flow>, allow: (SessionId, Meta, Option<nat>, Flow) -> bool)
    requires k < |evs| && evs[k] == Closed(id)
    requires forall i :: k < i < |evs| && evs[i].Offered? ==> evs[i].offer.id != id
    ensures HandleIp(Run(crl, evs), overlay, id, flow, allow).Discarded?
    ensures HandleIp(Run(crl, evs), overlay, from, flow, allow) != Relayed(id)
    ensures Ingress(Run(crl, evs), flow) != Relayed(id)
  {
    GoneStays(crl, evs, k, id);
  }

  /** Closing a session takes no destination from another. */
  lemma CloseKeepsOtherRoutes(crl: Crl, evs: seq<Event>, id: SessionId, dst: Ip)
    ensures var g := Run(crl, evs);
            var g' := Step(g, Closed(id));
            && (LongestMatch(g.routes, dst) != Some(id) ==> LongestMatch(g'.routes, dst) == LongestMatch(g.routes, dst))
            && (id in g.table ==> LongestMatch(g'.routes, dst) != Some(id))
  {
    RunGood(crl, evs);
    RemovalKeepsOthers(Run(crl, evs).routes, id, dst);
  }

  lemma {:induction false} InsertAllWins(t: Table, nets: seq<IpNet>, s: SessionId, n: IpNet)
    requires n in nets
    ensures Network(n) in InsertAll(t, nets, s) && InsertAll(t, nets, s)[Network(n)] == s
  {
    if n != nets[|nets| - 1] {
      assert n in nets[..|nets| - 1];
      InsertAllWins(t, nets[..|nets| - 1], s, n);
    }
  }

  /** An accepted offer wins each address it brings as a host route: packets for it go to the new
      session and count as that device's, and the session may send from it. */
  lemma OfferWins(g: State, o: Offer, host: IpNet)
    requires Good(g) && o.acceptable && o.tenant.Some? && o.serial !in g.crl.serials
    requires host in MetaRoutes(MetaOf(o)) && host.len == Width(host.addr.family)
    ensures Canonical(Accepting(g, o).routes) && LongestMatch(Accepting(g, o).routes, host.addr) == Some(o.id)
    ensures DestinationDevice(Accepting(g, o), host.addr) == Some(o.device)
    ensures o.id in Accepting(g, o).meta && OwnsSource(Accepting(g, o).meta[o.id], host.addr)
  {
    InsertAllCanonical(g.routes, MetaRoutes(MetaOf(o)), o.id);
    InsertAllWins(g.routes, MetaRoutes(MetaOf(o)), o.id, host);
    NetworkContains(host, host.addr);
    assert Best(Accepting(g, o).routes, host.addr, Network(host));
    LookupExact(Accepting(g, o).routes, host.addr);
  }

  /** A session offered with another's address takes it over, and keeps it when the other is closed. */
  lemma ReplacementKeepsAddress(crl: Crl, evs: seq<Event>, o: Offer, host: IpNet, superseded: SessionId)
    requires o.acceptable && o.tenant.Some? && o.serial !in Run(crl, evs).crl.serials && superseded != o.id
    requires host in MetaRoutes(MetaOf(o)) && host.len == Width(host.addr.family)
    ensures LongestMatch(Run(crl, evs + [Offered(o), Closed(superseded)]).routes, host.addr) == Some(o.id)
  {
    var g := Run(crl, evs);
    RunGood(crl, evs);
    OfferWins(g, o, host);
    RemovalKeepsOthers(Accepting(g, o).routes, superseded, host.addr);
    var mid := evs + [Offered(o)];
    var all := evs + [Offered(o), Closed(superseded)];
    assert mid[..|evs|] == evs && all[..|mid|] == mid;
  }
}
