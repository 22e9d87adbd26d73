/** The gateway's per-flow verdict cache in front of the policy engines. */
module FlowPolicy {
  import opened Wrappers
  import opened Net
  import opened Entities
  import opened Compiler
  import E = Engine
  import PS = PolicySpec

  type Uuid = nat

  datatype FlowContext = FlowContext(session: nat, tenant: Uuid, device: Uuid, destinationDevice: Option<Uuid>,
                                     dst: Ip, protocol: PS.u8, dstPort: Option<PS.u16>)

  datatype FlowKey = FlowKey(session: nat, dst: Ip, protocol: PS.u8, dstPort: PS.u16)

  datatype CachedDecision = CachedDecision(allow: bool, version: nat)

  datatype Why = NoPolicyPermissive | FromCache | Permit | Deny

  datatype Decision = Decision(allow: bool, reason: Why)

  function PortOf(ctx: FlowContext): PS.u16 {
    if ctx.dstPort.Some? then ctx.dstPort.value else 0
  }

  function KeyOf(ctx: FlowContext): FlowKey {
    FlowKey(ctx.session, ctx.dst, ctx.protocol, PortOf(ctx))
  }

  function ProtocolOf(p: PS.u8): PS.Protocol {
    if p == 6 then PS.Tcp else if p == 17 then PS.Udp else if p == 1 || p == 58 then PS.Icmp else PS.Any
  }

  function RequestOf(ctx: FlowContext): DecisionRequest {
    DecisionRequest(ctx.device,
                    if ctx.destinationDevice.Some? then ToDevice(ctx.destinationDevice.value) else ToIp,
                    ctx.dst, ProtocolOf(ctx.protocol), PortOf(ctx), false)
  }

  // ---------- the hook as a value ----------

  type Engines = map<Uuid, Option<E.Loaded>>

  datatype Hook = Hook(engines: Engines, cache: map<FlowKey, CachedDecision>)

  predicate Enforces(engines: Engines, tenant: Uuid) {
    tenant in engines && engines[tenant].Some? && engines[tenant].value.data.policies != []
  }

  /** The verdict with no cache in between: permissive until the tenant has a policy. */
  predicate Uncached(engines: Engines, ctx: FlowContext) {
    Enforces(engines, ctx.tenant) ==> E.DecideLoaded(engines[ctx.tenant].value, RequestOf(ctx)).allow
  }

  predicate Hit(h: Hook, ctx: FlowContext) {
    && Enforces(h.engines, ctx.tenant)
    && KeyOf(ctx) in h.cache
    && h.cache[KeyOf(ctx)].version == h.engines[ctx.tenant].value.data.version
  }

  function Checked(h: Hook, ctx: FlowContext): (Hook, Decision) {
    if !Enforces(h.engines, ctx.tenant) then (h, Decision(true, NoPolicyPermissive))
    else if Hit(h, ctx) then (h, Decision(h.cache[KeyOf(ctx)].allow, FromCache))
    else
      var allow := Uncached(h.engines, ctx);
      (h.(cache := h.cache[KeyOf(ctx) := CachedDecision(allow, h.engines[ctx.tenant].value.data.version)]),
       Decision(allow, if allow then Permit else Deny))
  }

  /** A snapshot that fails to load leaves its engine and the cache alone. */
  function AfterSnapshot(tz: PS.TzDb, h: Hook, tenant: Uuid, data: SnapshotData, now: int): Hook {
    var engines := if tenant in h.engines then h.engines else h.engines[tenant := None];
    match E.LoadSnapshot(tz, tenant, data, now)
    case Ok(l) => Hook(engines[tenant := Some(l)], map[])
    case Err(_) => h.(engines := engines)
  }

  function EnginesAfterPatch(tz: PS.TzDb, engines: Engines, tenant: Uuid, device: Uuid, attrs: DeviceAttrs,
                             now: int): Engines {
    if tenant in engines && engines[tenant].Some? then
      match E.PatchLoaded(tz, engines[tenant].value, device, attrs, now)
      case Ok(l) => engines[tenant := Some(l)]
      case Err(_) => engines
    else engines
  }

  /** A patch always clears the cache, even when it changes nothing. */
  function AfterPatch(tz: PS.TzDb, h: Hook, tenant: Uuid, device: Uuid, attrs: DeviceAttrs, now: int): Hook {
    Hook(EnginesAfterPatch(tz, h.engines, tenant, device, attrs, now), map[])
  }

  // ---------- runs ----------

  datatype Event =
    | Snapshot(tenant: Uuid, data: SnapshotData, now: int)
    | Patch(tenant: Uuid, device: Uuid, attrs: DeviceAttrs, now: int)
    | Check(ctx: FlowContext)

  /** The hook, and the flows checked since the cache was last cleared. */
  datatype Trace = Trace(hook: Hook, recent: seq<FlowContext>)

  function Next(tz: PS.TzDb, t: Trace, ev: Event): Trace {
    match ev
    case Snapshot(tenant, data, now) =>
      Trace(AfterSnapshot(tz, t.hook, tenant, data, now),
            if E.LoadSnapshot(tz, tenant, data, now).Ok? then [] else t.recent)
    case Patch(tenant, device, attrs, now) => Trace(AfterPatch(tz, t.hook, tenant, device, attrs, now), [])
    case Check(ctx) => Trace(Checked(t.hook, ctx).0, t.recent + [ctx])
  }

  function Run(tz: PS.TzDb, evs: seq<Event>): Trace {
    if evs == [] then Trace(Hook(map[], map[]), [])
    else Next(tz, Run(tz, evs[..|evs| - 1]), evs[|evs| - 1])
  }

  /** Two contexts that differ at most in what the flow key already determines. */
  predicate SameQuestion(a: FlowContext, b: FlowContext) {
    a.tenant == b.tenant && a.device == b.device && a.destinationDevice == b.destinationDevice
  }

  /** Between clears, a flow key keeps its tenant, device and destination device. */
  ghost predicate Consistent(t: Trace, ctx: FlowContext) {
    forall c :: c in t.recent && KeyOf(c) == KeyOf(ctx) ==> SameQuestion(c, ctx)
  }

  ghost predicate Steady(tz: PS.TzDb, evs: seq<Event>) {
    forall i :: 0 <= i < |evs| && evs[i].Check? ==> Consistent(Run(tz, evs[..i]), evs[i].ctx)
  }

  ghost predicate Explained(t: Trace, key: FlowKey) {
    key in t.hook.cache &&
    exists ctx :: ctx in t.recent && KeyOf(ctx) == key && Enforces(t.hook.engines, ctx.tenant)
                  && t.hook.cache[key].allow == Uncached(t.hook.engines, ctx)
  }

  /** Every cached verdict is the one the engines would give now for some recently checked flow. */
  ghost predicate CacheExplained(t: Trace) {
    forall key :: key in t.hook.cache ==> Explained(t, key)
  }

  lemma SameAnswer(engines: Engines, a: FlowContext, b: FlowContext)
    requires KeyOf(a) == KeyOf(b) && SameQuestion(a, b)
    ensures Uncached(engines, a) == Uncached(engines, b)
  {
    assert RequestOf(a) == RequestOf(b);
  }

  lemma CheckKeepsExplained(t: Trace, ctx: FlowContext)
    requires CacheExplained(t)
    ensures CacheExplained(Trace(Checked(t.hook, ctx).0, t.recent + [ctx]))
  {
    var after := Trace(Checked(t.hook, ctx).0, t.recent + [ctx]);
    assert after.hook.engines == t.hook.engines;
    forall key | key in after.hook.cache ensures Explained(after, key) {
      if key in t.hook.cache && after.hook.cache[key] == t.hook.cache[key] {
        assert Explained(t, key);
        var c :| c in t.recent && KeyOf(c) == key && Enforces(t.hook.engines, c.tenant)
                 && t.hook.cache[key].allow == Uncached(t.hook.engines, c);
        assert c in after.recent;
      } else {
        assert ctx in after.recent;
      }
    }
  }

  lemma FailedLoadKeepsExplained(tz: PS.TzDb, t: Trace, tenant: Uuid, data: SnapshotData, now: int)
    requires CacheExplained(t) && E.LoadSnapshot(tz, tenant, data, now).Err?
    ensures CacheExplained(t.(hook := AfterSnapshot(tz, t.hook, tenant, data, now)))
  {
    var after := t.(hook := AfterSnapshot(tz, t.hook, tenant, data, now));
    forall key | key in after.hook.cache ensures Explained(after, key) {
      assert Explained(t, key);
      var c :| c in t.recent && KeyOf(c) == key && Enforces(t.hook.engines, c.tenant)
               && t.hook.cache[key].allow == Uncached(t.hook.engines, c);
      assert after.hook.engines[c.tenant] == t.hook.engines[c.tenant];
    }
  }

  lemma {:induction false} RunKeepsExplained(tz: PS.TzDb, evs: seq<Event>)
    ensures CacheExplained(Run(tz, evs))
  {
    if evs != [] {
      var t, ev := Run(tz, evs[..|evs| - 1]), evs[|evs| - 1];
      RunKeepsExplained(tz, evs[..|evs| - 1]);
      match ev
      case Snapshot(tenant, data, now) =>
        if E.LoadSnapshot(tz, tenant, data, now).Err? { FailedLoadKeepsExplained(tz, t, tenant, data, now); }
      case Patch(tenant, device, attrs, now) =>
      case Check(ctx) => CheckKeepsExplained(t, ctx);
    }
  }

  lemma CachedIsUncached(t: Trace, ctx: FlowContext)
    requires CacheExplained(t) && Consistent(t, ctx)
    ensures Checked(t.hook, ctx).1.allow == Uncached(t.hook.engines, ctx)
  {
    if Hit(t.hook, ctx) {
      assert Explained(t, KeyOf(ctx));
      var c :| c in t.recent && KeyOf(c) == KeyOf(ctx) && Enforces(t.hook.engines, c.tenant)
               && t.hook.cache[KeyOf(ctx)].allow == Uncached(t.hook.engines, c);
      SameAnswer(t.hook.engines, c, ctx);
    }
  }

  /** In every steady run of snapshots, patches and checks, failed loads included, each check gets
      the verdict the engines alone would give. */
  lemma CacheRefinesEngine(tz: PS.TzDb, evs: seq<Event>, i: nat)
    requires Steady(tz, evs) && i < |evs| && evs[i].Check?
    ensures var h := Run(tz, evs[..i]).hook;
            Checked(h, evs[i].ctx).1.allow == Uncached(h.engines, evs[i].ctx)
  {
    RunKeepsExplained(tz, evs[..i]);
    CachedIsUncached(Run(tz, evs[..i]), evs[i].ctx);
  }

  // ---------- exactly which flows may share a cache entry ----------

  /** Once `a` has been checked, the verdict for `b` is the one the engines alone would give. */
  ghost predicate VerdictHolds(tz: PS.TzDb, evs: seq<Event>, a: FlowContext, b: FlowContext) {
    var h := Run(tz, evs + [Check(a)]).hook;
    Checked(h, b).1.allow == Uncached(h.engines, b)
  }

  /** That holds after every run that was steady up to and including the check of `a`. */
  ghost predicate SafeAfter(a: FlowContext, b: FlowContext) {
    forall tz, evs :: Steady(tz, evs + [Check(a)]) ==> VerdictHolds(tz, evs, a, b)
  }

  const EVERYTHING := PS.Selector([], [], [], [], true)

  function AllowTo(dest: PS.Selector): PolicyEntry {
    PolicyEntry(0, "", PS.PolicySpec(2, PS.Allow, 100, EVERYTHING, dest, [], PS.Conditions(None, None, None, None)))
  }

  lemma OnePolicyLoads(tenant: Uuid, device: Uuid, dest: PS.Selector) returns (l: E.Loaded)
    requires !dest.IsEmpty()
    ensures E.LoadSnapshot(map[], tenant, OneDevice(tenant, device, None, [AllowTo(dest)]), 0) == Ok(l)
    ensures l.data == OneDevice(tenant, device, None, [AllowTo(dest)])
  {
    var data := OneDevice(tenant, device, None, [AllowTo(dest)]);
    var store := OneDeviceStore(data, tenant, device, None);
    var items := E.Items(map[], data.policies, 0);
    assert items[0].verdict.Take?;
    assert |items| == 1 && items[..0] == [] && E.Assemble(items[..0]) == Ok(E.NOTHING);
    assert E.Assemble(items).Ok?;
    l := E.LoadSnapshot(map[], tenant, data, 0).value;
  }

  lemma OnePolicyFires(data: SnapshotData, dest: PS.Selector, effect: PS.Effect, d: DeviceEntity, req: DecisionRequest)
    requires data.policies == [AllowTo(dest)] && NamesNoClass(dest)
    ensures E.SomeFires(map[], data, 0, effect, d, req) <==> effect.Allow? && DestinationMatches(data, dest, req)
  {
    var e := AllowTo(dest);
    assert HonouredSpec(e.spec) == e.spec;
    assert E.Fires(map[], data, 0, e, d, req) <==> DestinationMatches(data, dest, req);
    assert e in data.policies && forall f :: f in data.policies ==> f == e;
  }

  /** One policy from anywhere to `dest`, and one device: the verdict is whether that device asks for `dest`. */
  lemma OnePolicyVerdict(engines: Engines, tenant: Uuid, l: E.Loaded, device: Uuid, dest: PS.Selector, ctx: FlowContext)
    requires !dest.IsEmpty() && NamesNoClass(dest) && ctx.tenant == tenant
    requires tenant in engines && engines[tenant] == Some(l)
    requires l.data == OneDevice(tenant, device, None, [AllowTo(dest)])
    requires E.LoadSnapshot(map[], tenant, l.data, 0) == Ok(l)
    ensures Uncached(engines, ctx) <==> ctx.device == device && DestinationMatches(l.data, dest, RequestOf(ctx))
  {
    E.DecidesExactly(map[], tenant, l.data, 0, l, RequestOf(ctx));
    OnePolicyFires(l.data, dest, PS.Allow, l.data.devices[0], RequestOf(ctx));
    OnePolicyFires(l.data, dest, PS.Deny, l.data.devices[0], RequestOf(ctx));
  }

  function OneLoad(tenant: Uuid, device: Uuid, dest: PS.Selector): Event {
    Snapshot(tenant, OneDevice(tenant, device, None, [AllowTo(dest)]), 0)
  }

  /** Loading one more one-device snapshot with an empty cache. */
  lemma Loads(evs: seq<Event>, engines: Engines, tenant: Uuid, device: Uuid, dest: PS.Selector) returns (l: E.Loaded)
    requires !dest.IsEmpty() && Run(map[], evs) == Trace(Hook(engines, map[]), [])
    ensures Run(map[], evs + [OneLoad(tenant, device, dest)]) == Trace(Hook(engines[tenant := Some(l)], map[]), [])
    ensures l.data == OneDevice(tenant, device, None, [AllowTo(dest)])
    ensures E.LoadSnapshot(map[], tenant, l.data, 0) == Ok(l)
  {
    l := OnePolicyLoads(tenant, device, dest);
    var all := evs + [OneLoad(tenant, device, dest)];
    assert all[..|all| - 1] == evs;
    var known := if tenant in engines then engines else engines[tenant := None];
    assert known[tenant := Some(l)] == engines[tenant := Some(l)];
  }

  /** With nothing cached, checking `a` makes its verdict the answer for `b` too. */
  lemma SharedVerdict(engines: Engines, a: FlowContext, b: FlowContext)
    requires KeyOf(a) == KeyOf(b) && Enforces(engines, a.tenant) && Enforces(engines, b.tenant)
    requires engines[a.tenant].value.data.version == engines[b.tenant].value.data.version
    ensures var h := Checked(Hook(engines, map[]), a).0;
            h.engines == engines && Checked(h, b).1.allow == Uncached(engines, a)
  {
  }

  predicate Unchecked(evs: seq<Event>) {
    forall i :: 0 <= i < |evs| ==> !evs[i].Check?
  }

  lemma {:induction false} UncheckedEmpty(tz: PS.TzDb, evs: seq<Event>)
    requires Unchecked(evs)
    ensures Run(tz, evs).recent == [] && Run(tz, evs).hook.cache == map[]
  {
    if evs != [] { UncheckedEmpty(tz, evs[..|evs| - 1]); }
  }

  lemma FirstCheckSteady(tz: PS.TzDb, evs: seq<Event>, a: FlowContext)
    requires Unchecked(evs)
    ensures Steady(tz, evs + [Check(a)])
  {
    var all := evs + [Check(a)];
    UncheckedEmpty(tz, evs);
    forall i | 0 <= i < |all| && all[i].Check? ensures Consistent(Run(tz, all[..i]), all[i].ctx) {
      assert i == |evs| && all[..i] == evs;
    }
  }

  lemma Shared(evs: seq<Event>, engines: Engines, a: FlowContext, b: FlowContext)
    requires Run(map[], evs) == Trace(Hook(engines, map[]), []) && KeyOf(a) == KeyOf(b)
    requires Unchecked(evs) && Enforces(engines, a.tenant) && Enforces(engines, b.tenant)
    requires engines[a.tenant].value.data.version == engines[b.tenant].value.data.version
    requires Uncached(engines, a) != Uncached(engines, b)
    ensures Steady(map[], evs + [Check(a)]) && !VerdictHolds(map[], evs, a, b)
  {
    FirstCheckSteady(map[], evs, a);
    SharedVerdict(engines, a, b);
    var all := evs + [Check(a)];
    assert all[..|all| - 1] == evs;
  }

  lemma TenantsClash(a: FlowContext, b: FlowContext) returns (evs: seq<Event>)
    requires KeyOf(a) == KeyOf(b) && a.tenant != b.tenant
    ensures Unchecked(evs) && Steady(map[], evs + [Check(a)]) && !VerdictHolds(map[], evs, a, b)
  {
    var none: seq<Event> := [];
    var first := none + [OneLoad(a.tenant, a.device, EVERYTHING)];
    var l := Loads(none, map[], a.tenant, a.device, EVERYTHING);
    var one: Engines := map[a.tenant := Some(l)];
    evs := first + [OneLoad(b.tenant, b.device + 1, EVERYTHING)];
    var m := Loads(first, one, b.tenant, b.device + 1, EVERYTHING);
    var engines := one[b.tenant := Some(m)];
    OnePolicyVerdict(engines, a.tenant, l, a.device, EVERYTHING, a);
    OnePolicyVerdict(engines, b.tenant, m, b.device + 1, EVERYTHING, b);
    Shared(evs, engines, a, b);
  }

  lemma DevicesClash(a: FlowContext, b: FlowContext) returns (evs: seq<Event>)
    requires KeyOf(a) == KeyOf(b) && a.tenant == b.tenant && a.device != b.device
    ensures Unchecked(evs) && Steady(map[], evs + [Check(a)]) && !VerdictHolds(map[], evs, a, b)
  {
    var none: seq<Event> := [];
    evs := none + [OneLoad(a.tenant, a.device, EVERYTHING)];
    var l := Loads(none, map[], a.tenant, a.device, EVERYTHING);
    var engines: Engines := map[a.tenant := Some(l)];
    OnePolicyVerdict(engines, a.tenant, l, a.device, EVERYTHING, a);
    OnePolicyVerdict(engines, a.tenant, l, a.device, EVERYTHING, b);
    Shared(evs, engines, a, b);
  }

  lemma DestinationsClash(a: FlowContext, b: FlowContext, named: Uuid) returns (evs: seq<Event>)
    requires KeyOf(a) == KeyOf(b) && a.tenant == b.tenant && a.device == b.device
    requires (a.destinationDevice == Some(named)) != (b.destinationDevice == Some(named))
    ensures Unchecked(evs) && Steady(map[], evs + [Check(a)]) && !VerdictHolds(map[], evs, a, b)
  {
    var dest := PS.Selector([], [named], [], [], false);
    var none: seq<Event> := [];
    evs := none + [OneLoad(a.tenant, a.device, dest)];
    var l := Loads(none, map[], a.tenant, a.device, dest);
    var engines: Engines := map[a.tenant := Some(l)];
    OnePolicyVerdict(engines, a.tenant, l, a.device, dest, a);
    OnePolicyVerdict(engines, a.tenant, l, a.device, dest, b);
    Shared(evs, engines, a, b);
  }

  lemma SharingSafe(tz: PS.TzDb, evs: seq<Event>, a: FlowContext, b: FlowContext)
    requires KeyOf(a) == KeyOf(b) && SameQuestion(a, b) && Steady(tz, evs + [Check(a)])
    ensures VerdictHolds(tz, evs, a, b)
  {
    var all := evs + [Check(a)];
    assert all[..|evs|] == evs && all[|evs|] == Check(a);
    assert Consistent(Run(tz, evs), a);
    RunKeepsExplained(tz, all);
    CachedIsUncached(Run(tz, all), b);
  }

  /** A run that ends in a wrong verdict for any two flows that share a key and not the question. */
  lemma Clash(a: FlowContext, b: FlowContext) returns (evs: seq<Event>)
    requires KeyOf(a) == KeyOf(b) && !SameQuestion(a, b)
    ensures Unchecked(evs) && Steady(map[], evs + [Check(a)]) && !VerdictHolds(map[], evs, a, b)
  {
    if a.tenant != b.tenant { evs := TenantsClash(a, b); }
    else if a.device != b.device { evs := DevicesClash(a, b); }
    else {
      var named := if a.destinationDevice.Some? then a.destinationDevice.value else b.destinationDevice.value;
      evs := DestinationsClash(a, b, named);
    }
  }

  /** Of two flows with one key, the second gets the engines' verdict after the first in every run
      exactly when they agree on what the key leaves out. */
  lemma KeySharingExact(a: FlowContext, b: FlowContext)
    requires KeyOf(a) == KeyOf(b)
    ensures SafeAfter(a, b) <==> SameQuestion(a, b)
  {
    if SameQuestion(a, b) {
      forall tz, evs | Steady(tz, evs + [Check(a)]) ensures VerdictHolds(tz, evs, a, b) {
        SharingSafe(tz, evs, a, b);
      }
    } else {
      var evs := Clash(a, b);
      assert Steady(map[], evs + [Check(a)]) && !VerdictHolds(map[], evs, a, b);
    }
  }

  // ---------- the hook object ----------

  class CedarFlowPolicy {
    const tz: PS.TzDb
    var engines: map<Uuid, E.Engine>
    var cache: map<FlowKey, CachedDecision>

    constructor (tz: PS.TzDb)
      ensures this.tz == tz && engines == map[] && cache == map[] && Valid()
    {
      this.tz := tz;
      engines := map[];
      cache := map[];
    }

    /** Each tenant has an engine of its own. */
    ghost predicate Valid()
      reads this
    {
      forall t :: t in engines ==> engines[t].tenant == t && engines[t].tz == tz
    }

    ghost function View(): Hook
      reads this, engines.Values
    {
      Hook(map t | t in engines :: engines[t].inner, cache)
    }

    method EngineFor(tenant: Uuid) returns (engine: E.Engine)
      requires Valid()
      modifies this
      ensures Valid() && tenant in engines && engines[tenant] == engine && cache == old(cache)
      ensures engine in old(engines).Values || fresh(engine)
      ensures View().engines ==
              if tenant in old(engines) then old(View()).engines else old(View()).engines[tenant := None]
    {
      if tenant in engines { return engines[tenant]; }
      engine := new E.Engine.Empty(tenant, tz);
      engines := engines[tenant := engine];
    }

    /** Changing one engine changes one entry of the view. */
    twostate lemma OneEngineChanged(tenant: Uuid)
      requires old(Valid()) && unchanged(`engines) && tenant in engines
      requires forall t :: t in engines && engines[t] != engines[tenant] ==> unchanged(engines[t])
      ensures View().engines == old(View()).engines[tenant := engines[tenant].inner]
    {
      forall t | t in engines && t != tenant ensures engines[t].inner == old(engines[t].inner) {
        assert engines[t].tenant != engines[tenant].tenant;
      }
    }

    method LoadInto(tenant: Uuid, data: SnapshotData, now: int) returns (r: Result<(), CompileError>)
      requires Valid()
      modifies this, engines.Values
      ensures Valid() && View().engines == AfterSnapshot(tz, old(View()), tenant, data, now).engines
      ensures cache == old(cache) && (r.Ok? <==> E.LoadSnapshot(tz, tenant, data, now).Ok?)
    {
      var engine := EngineFor(tenant);
      label found:
      r := engine.Load(data, now);
      OneEngineChanged@found(tenant);
    }

    method ApplySnapshot(tenant: Uuid, data: SnapshotData, now: int) returns (r: Result<(), CompileError>)
      requires Valid()
      modifies this, engines.Values
      ensures Valid() && View() == AfterSnapshot(tz, old(View()), tenant, data, now)
      ensures r.Ok? <==> E.LoadSnapshot(tz, tenant, data, now).Ok?
    {
      r := LoadInto(tenant, data, now);
      ghost var after := View().engines;
      if r.Ok? { cache := map[]; }
      assert View().engines == after;
    }

    method PatchInto(tenant: Uuid, device: Uuid, attrs: DeviceAttrs, now: int)
      requires Valid()
      modifies this, engines.Values
      ensures Valid() && cache == old(cache)
      ensures View().engines == EnginesAfterPatch(tz, old(View()).engines, tenant, device, attrs, now)
    {
      if tenant in engines {
        var ignored := engines[tenant].PatchDevice(device, attrs, now);
        OneEngineChanged(tenant);
      }
    }

    method PatchDevice(tenant: Uuid, device: Uuid, attrs: DeviceAttrs, now: int)
      requires Valid()
      modifies this, engines.Values
      ensures Valid() && View() == AfterPatch(tz, old(View()), tenant, device, attrs, now)
    {
      PatchInto(tenant, device, attrs, now);
      ghost var after := View().engines;
      cache := map[];
      assert View().engines == after;
    }

    method Allow(ctx: FlowContext) returns (d: Decision)
      requires Valid()
      modifies `cache
      ensures Valid() && View() == Checked(old(View()), ctx).0 && d == Checked(old(View()), ctx).1
    {
      ghost var before := View();
      if ctx.tenant !in engines { return Decision(true, NoPolicyPermissive); }
      var engine := engines[ctx.tenant];
      assert before.engines[ctx.tenant] == engine.inner;
      if !engine.HasPolicies() { return Decision(true, NoPolicyPermissive); }
      var version := engine.Version();
      var key := KeyOf(ctx);
      if key in cache && cache[key].version == version {
        return Decision(cache[key].allow, FromCache);
      }
      var result := engine.Decide(RequestOf(ctx));
      cache := cache[key := CachedDecision(result.allow, version)];
      assert View().engines == before.engines;
      d := Decision(result.allow, if result.allow then Permit else Deny);
    }
  }
}
