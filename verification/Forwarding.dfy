/** Forwarding with the verdict cache in it: the gateway's sessions and routes decide what is asked of
    the policy, and change without clearing what was cached. */
module Forwarding {
  import opened Wrappers
  import opened Net
  import G = Gateway
  import F = FlowPolicy
  import PS = PolicySpec

  datatype Packet = Packet(sid: nat, src: Ip, dst: Ip, protocol: PS.u8, port: Option<PS.u16>)

  datatype System = System(gateway: G.State, policy: F.Trace)

  /** Offers, closes, lists and route updates; snapshots and patches; packets. */
  datatype Event = Managed(change: G.Event) | Governed(update: F.Event) | Arrives(packet: Packet)

  /** The packet is known, and its own, so its flow is put to the policy. */
  predicate Asked(g: G.State, p: Packet) {
    p.sid in g.meta && G.OwnsSource(g.meta[p.sid], p.src)
  }

  function ContextFor(p: Packet, m: G.Meta, destination: Option<nat>): F.FlowContext {
    F.FlowContext(p.sid, m.tenant, m.device, destination, p.dst, p.protocol, p.port)
  }

  function Context(g: G.State, p: Packet): F.FlowContext
    requires p.sid in g.meta
  {
    ContextFor(p, g.meta[p.sid], G.DestinationDevice(g, p.dst))
  }

  function Step(tz: PS.TzDb, s: System, ev: Event): System {
    match ev
    case Managed(change) => s.(gateway := G.Step(s.gateway, change))
    case Governed(update) => if update.Check? then s else s.(policy := F.Next(tz, s.policy, update))
    case Arrives(p) =>
      if Asked(s.gateway, p) then s.(policy := F.Next(tz, s.policy, F.Check(Context(s.gateway, p)))) else s
  }

  function Start(crl: G.Crl): System {
    System(G.State({}, map[], map[], crl), F.Trace(F.Hook(map[], map[]), []))
  }

  function Run(tz: PS.TzDb, s: System, evs: seq<Event>): System {
    if evs == [] then s else Step(tz, Run(tz, s, evs[..|evs| - 1]), evs[|evs| - 1])
  }

  /** What becomes of a packet, with the cache in between and without. */
  function Forwarded(s: System, overlay: seq<IpNet>, p: Packet): G.Outcome {
    G.HandleIp(s.gateway, overlay, p.sid, Some(G.Flow(p.src, p.dst)),
               (sid: nat, m: G.Meta, destination: Option<nat>, flow: G.Flow) =>
                 F.Checked(s.policy.hook, ContextFor(p, m, destination)).1.allow)
  }

  function Ideal(s: System, overlay: seq<IpNet>, p: Packet): G.Outcome {
    G.HandleIp(s.gateway, overlay, p.sid, Some(G.Flow(p.src, p.dst)),
               (sid: nat, m: G.Meta, destination: Option<nat>, flow: G.Flow) =>
                 F.Uncached(s.policy.hook.engines, ContextFor(p, m, destination)))
  }

  /** A wrong verdict always shows: one of the two outcomes is a denial. */
  lemma OutcomeExact(s: System, overlay: seq<IpNet>, p: Packet)
    ensures Forwarded(s, overlay, p) == Ideal(s, overlay, p) <==>
            (Asked(s.gateway, p) ==>
               var ctx := Context(s.gateway, p);
               F.Checked(s.policy.hook, ctx).1.allow == F.Uncached(s.policy.hook.engines, ctx))
  {
  }

  // ---------- every run ----------

  /** The events the policy hook saw in a run. */
  function Seen(tz: PS.TzDb, s: System, evs: seq<Event>): seq<F.Event> {
    if evs == [] then [] else
    var before := Seen(tz, s, evs[..|evs| - 1]);
    match evs[|evs| - 1]
    case Managed(_) => before
    case Governed(update) => if update.Check? then before else before + [update]
    case Arrives(p) =>
      var g := Run(tz, s, evs[..|evs| - 1]).gateway;
      if Asked(g, p) then before + [F.Check(Context(g, p))] else before
  }

  lemma {:induction false} SeenIsRun(tz: PS.TzDb, crl: G.Crl, evs: seq<Event>)
    ensures Run(tz, Start(crl), evs).policy == F.Run(tz, Seen(tz, Start(crl), evs))
  {
    if evs != [] {
      var before := evs[..|evs| - 1];
      SeenIsRun(tz, crl, before);
      var fs, gs := Seen(tz, Start(crl), before), Seen(tz, Start(crl), evs);
      if gs != fs { assert gs[..|gs| - 1] == fs; }
    }
  }

  /** In every run of offers, closes, lists, route updates, snapshots, patches and packets, a packet
      fares as it would without the cache if, since the cache was last cleared, every packet of its
      flow put the same question. */
  lemma ForwardingRefines(tz: PS.TzDb, crl: G.Crl, evs: seq<Event>, overlay: seq<IpNet>, p: Packet)
    requires var s := Run(tz, Start(crl), evs);
             Asked(s.gateway, p) ==> F.Consistent(s.policy, Context(s.gateway, p))
    ensures var s := Run(tz, Start(crl), evs); Forwarded(s, overlay, p) == Ideal(s, overlay, p)
  {
    var s := Run(tz, Start(crl), evs);
    SeenIsRun(tz, crl, evs);
    F.RunKeepsExplained(tz, Seen(tz, Start(crl), evs));
    if Asked(s.gateway, p) { F.CachedIsUncached(s.policy, Context(s.gateway, p)); }
    OutcomeExact(s, overlay, p);
  }

  // ---------- exactly which changes between two packets matter ----------

  predicate SameFlow(p: Packet, q: Packet) {
    p.sid == q.sid && p.dst == q.dst && p.protocol == q.protocol
    && (if p.port.Some? then p.port.value else 0) == (if q.port.Some? then q.port.value else 0)
  }

  function Managing(changes: seq<G.Event>): seq<Event> {
    seq(|changes|, i requires 0 <= i < |changes| => Managed(changes[i]))
  }

  function Governing(updates: seq<F.Event>): seq<Event> {
    seq(|updates|, i requires 0 <= i < |updates| => Governed(updates[i]))
  }

  /** Changes to the gateway, then to the policy, a packet, and further changes to the gateway. */
  function Script(first: seq<G.Event>, updates: seq<F.Event>, p: Packet, later: seq<G.Event>): seq<Event> {
    Managing(first) + Governing(updates) + [Arrives(p)] + Managing(later)
  }

  lemma {:induction false} RunConcat(tz: PS.TzDb, s: System, a: seq<Event>, b: seq<Event>)
    ensures Run(tz, s, a + b) == Run(tz, Run(tz, s, a), b)
    decreases |b|
  {
    if b == [] {
      assert a + b == a;
    } else {
      var all := a + b;
      assert all[..|all| - 1] == a + b[..|b| - 1] && all[|all| - 1] == b[|b| - 1];
      RunConcat(tz, s, a, b[..|b| - 1]);
    }
  }

  lemma {:induction false} ManagingRun(tz: PS.TzDb, crl: G.Crl, policy: F.Trace, first: seq<G.Event>,
          more: seq<G.Event>)
    ensures Run(tz, System(G.Run(crl, first), policy), Managing(more)) == System(G.Run(crl, first + more), policy)
    decreases |more|
  {
    if more == [] {
      assert first + more == first;
    } else {
      var before, all := more[..|more| - 1], first + more;
      ManagingRun(tz, crl, policy, first, before);
      assert Managing(more)[..|more| - 1] == Managing(before);
      assert all[..|all| - 1] == first + before;
    }
  }

  lemma {:induction false} GoverningRun(tz: PS.TzDb, g: G.State, updates: seq<F.Event>)
    requires F.Unchecked(updates)
    ensures Run(tz, System(g, F.Run(tz, [])), Governing(updates)) == System(g, F.Run(tz, updates))
  {
    if updates != [] {
      var before := updates[..|updates| - 1];
      GoverningRun(tz, g, before);
      assert Governing(updates)[..|updates| - 1] == Governing(before);
    }
  }

  /** The policy hook when the second packet of the flow comes. */
  function HookAfter(tz: PS.TzDb, g: G.State, updates: seq<F.Event>, p: Packet): F.Trace {
    if Asked(g, p) then F.Run(tz, updates + [F.Check(Context(g, p))]) else F.Run(tz, updates)
  }

  lemma ScriptRun(tz: PS.TzDb, crl: G.Crl, first: seq<G.Event>, updates: seq<F.Event>, p: Packet, later: seq<G.Event>)
    requires F.Unchecked(updates)
    ensures Run(tz, Start(crl), Script(first, updates, p, later))
            == System(G.Run(crl, first + later), HookAfter(tz, G.Run(crl, first), updates, p))
  {
    var a, b, one, d := Managing(first), Governing(updates), [Arrives(p)], Managing(later);
    var g := G.Run(crl, first);
    var none: seq<G.Event> := [];
    RunConcat(tz, Start(crl), a + b + one, d);
    RunConcat(tz, Start(crl), a + b, one);
    RunConcat(tz, Start(crl), a, b);
    ManagingRun(tz, crl, F.Run(tz, []), none, first);
    assert none + first == first;
    GoverningRun(tz, g, updates);
    var mid := System(g, F.Run(tz, updates));
    assert one[..0] == [] && Run(tz, mid, one) == Step(tz, mid, Arrives(p));
    assert Asked(g, p) ==> (updates + [F.Check(Context(g, p))])[..|updates|] == updates;
    ManagingRun(tz, crl, HookAfter(tz, g, updates, p), first, later);
  }

  /** Whatever the policy and its updates before the first packet, the second fares as without a cache. */
  ghost predicate AlwaysIdeal(crl: G.Crl, first: seq<G.Event>, p: Packet, later: seq<G.Event>, overlay: seq<IpNet>,
                              q: Packet) {
    forall tz, updates :: F.Unchecked(updates) ==> IdealAfter(tz, crl, first, updates, p, later, overlay, q)
  }

  predicate IdealAfter(tz: PS.TzDb, crl: G.Crl, first: seq<G.Event>, updates: seq<F.Event>, p: Packet,
                       later: seq<G.Event>, overlay: seq<IpNet>, q: Packet) {
    var s := Run(tz, Start(crl), Script(first, updates, p, later));
    Forwarded(s, overlay, q) == Ideal(s, overlay, q)
  }

  /** The changes in between do not touch what the flow asks. */
  predicate Harmless(g: G.State, g': G.State, p: Packet, q: Packet) {
    Asked(g, p) && Asked(g', q) ==> F.SameQuestion(Context(g, p), Context(g', q))
  }

  lemma HarmlessIdeal(tz: PS.TzDb, g: G.State, g': G.State, updates: seq<F.Event>, p: Packet, overlay: seq<IpNet>,
                      q: Packet)
    requires SameFlow(p, q) && F.Unchecked(updates) && Harmless(g, g', p, q)
    ensures var s := System(g', HookAfter(tz, g, updates, p)); Forwarded(s, overlay, q) == Ideal(s, overlay, q)
  {
    var s := System(g', HookAfter(tz, g, updates, p));
    OutcomeExact(s, overlay, q);
    if Asked(g', q) {
      if Asked(g, p) {
        F.FirstCheckSteady(tz, updates, Context(g, p));
        F.SharingSafe(tz, updates, Context(g, p), Context(g', q));
      } else {
        F.UncheckedEmpty(tz, updates);
      }
    }
  }

  /** Of two packets of one flow with changes to the gateway in between, the second fares as it would
      without the cache, under every policy, exactly when it is not asked about, the first was not, or
      both put the same question: the same tenant, device and destination device. */
  lemma ForwardingExact(crl: G.Crl, first: seq<G.Event>, p: Packet, later: seq<G.Event>, overlay: seq<IpNet>, q: Packet)
    requires SameFlow(p, q)
    ensures AlwaysIdeal(crl, first, p, later, overlay, q) <==>
            Harmless(G.Run(crl, first), G.Run(crl, first + later), p, q)
  {
    var g, g' := G.Run(crl, first), G.Run(crl, first + later);
    if Harmless(g, g', p, q) {
      forall tz, updates | F.Unchecked(updates) ensures IdealAfter(tz, crl, first, updates, p, later, overlay, q) {
        ScriptRun(tz, crl, first, updates, p, later);
        HarmlessIdeal(tz, g, g', updates, p, overlay, q);
      }
    } else {
      var updates := F.Clash(Context(g, p), Context(g', q));
      ScriptRun(map[], crl, first, updates, p, later);
      OutcomeExact(System(g', HookAfter(map[], g, updates, p)), overlay, q);
      assert !IdealAfter(map[], crl, first, updates, p, later, overlay, q);
    }
  }

  /** An accepted offer that brings a device to an address others were already sending to is such a
      change: their cached verdicts outlive the question they answered. */
  lemma OfferStalesCache(crl: G.Crl, first: seq<G.Event>, o: G.Offer, host: IpNet, overlay: seq<IpNet>, p: Packet)
    requires o.acceptable && o.tenant.Some? && o.serial !in G.Run(crl, first).crl.serials && o.id != p.sid
    requires host in G.MetaRoutes(G.MetaOf(o)) && host.len == Width(host.addr.family) && host.addr == p.dst
    requires Asked(G.Run(crl, first), p) && G.DestinationDevice(G.Run(crl, first), p.dst) != Some(o.device)
    ensures !AlwaysIdeal(crl, first, p, [G.Offered(o)], overlay, p)
  {
    var g := G.Run(crl, first);
    G.RunGood(crl, first);
    G.OfferWins(g, o, host);
    var all := first + [G.Offered(o)];
    assert all[..|all| - 1] == first;
    assert G.Run(crl, all) == G.Accepting(g, o);
    assert Asked(G.Run(crl, all), p);
    ForwardingExact(crl, first, p, [G.Offered(o)], overlay, p);
  }
}
