/** Compilation of a policy document to a Cedar `when` expression, and the proof that the
    expression means what the document says. */
module Compiler {
  import opened Wrappers
  import opened Net
  import opened Cedar
  import opened Entities
  import PS = PolicySpec

  // ---------- the compiler ----------

  const TRUE := Lit(Bool(true))

  function PodRefs(ids: seq<Uuid>): (r: seq<Uid>)
    ensures forall u :: u in r <==> u.Pod? && u.id in ids
  {
    if ids == [] then [] else [Pod(ids[0])] + PodRefs(ids[1..])
  }

  function ClassRefs(ids: seq<Uuid>): (r: seq<Uid>)
    ensures forall u :: u in r <==> u.DeviceClass? && u.id in ids
  {
    if ids == [] then [] else [DeviceClass(ids[0])] + ClassRefs(ids[1..])
  }

  function DeviceRefs(ids: seq<Uuid>): (r: seq<Uid>)
    ensures forall u :: u in r <==> u.Device? && u.id in ids
  {
    if ids == [] then [] else [Device(ids[0])] + DeviceRefs(ids[1..])
  }

  function When<T>(c: bool, x: T): seq<T> {
    if c then [x] else []
  }

  function SourceParts(s: PS.Selector): seq<Expr> {
    When(s.pods != [], InAny(Var(Principal), PodRefs(s.pods)))
    + When(s.deviceClasses != [], InAny(Var(Principal), ClassRefs(s.deviceClasses)))
    + When(s.devices != [], InAny(Var(Principal), DeviceRefs(s.devices)))
  }

  function OrTrue(parts: seq<Expr>): Expr {
    if parts == [] then TRUE else OrAll(parts)
  }

  function SourceExpr(s: PS.Selector): Expr {
    if s.any then TRUE else OrTrue(SourceParts(s))
  }

  function CidrChecks(cidrs: seq<IpNet>): (r: seq<Expr>)
    ensures |r| == |cidrs|
    ensures forall i :: 0 <= i < |r| ==> r[i] == IsInRange(Var(DstIp), cidrs[i])
  {
    seq(|cidrs|, i requires 0 <= i < |cidrs| => IsInRange(Var(DstIp), cidrs[i]))
  }

  function CidrParts(cidrs: seq<IpNet>): seq<Expr> {
    if cidrs == [] then []
    else [And(Eq(Var(Resource), Lit(EntityValue(External))), OrAll(CidrChecks(cidrs))),
          And(Is(Var(Resource), DeviceType), OrAll(CidrChecks(cidrs)))]
  }

  function DestParts(s: PS.Selector): seq<Expr> {
    When(s.pods != [], InAny(Var(Resource), PodRefs(s.pods)))
    + When(s.devices != [], InAny(Var(Resource), DeviceRefs(s.devices)))
    + CidrParts(s.cidrs)
  }

  function DestExpr(s: PS.Selector): Expr {
    if s.any then TRUE else OrTrue(DestParts(s))
  }

  function ProtocolName(p: PS.Protocol): string {
    match p
    case Tcp => "tcp"
    case Udp => "udp"
    case Icmp => "icmp"
    case Any => "any"
  }

  function PortCheck(r: PS.PortRange): Expr {
    if r.start == r.end then Eq(Var(DstPort), Lit(Long(r.start)))
    else And(Ge(Var(DstPort), Lit(Long(r.start))), Le(Var(DstPort), Lit(Long(r.end))))
  }

  function PortChecks(ranges: seq<PS.PortRange>): (r: seq<Expr>)
    ensures |r| == |ranges|
    ensures forall i :: 0 <= i < |r| ==> r[i] == PortCheck(ranges[i])
  {
    seq(|ranges|, i requires 0 <= i < |ranges| => PortCheck(ranges[i]))
  }

  function ProtocolCheck(p: PS.Protocol): Expr {
    Eq(Var(Protocol), Lit(Str(ProtocolName(p))))
  }

  function RuleBase(rule: PS.L4Rule): Expr {
    match rule.protocol
    case Any => TRUE
    case Icmp => ProtocolCheck(PS.Icmp)
    case p => if rule.ports.IsAll() then ProtocolCheck(p)
              else And(ProtocolCheck(p), OrAll(PortChecks(rule.ports.ranges)))
  }

  function RuleExpr(rule: PS.L4Rule): Expr {
    Or(Var(Admission), RuleBase(rule))
  }

  function RuleExprs(l4: seq<PS.L4Rule>): (r: seq<Expr>)
    ensures |r| == |l4|
    ensures forall i :: 0 <= i < |r| ==> r[i] == RuleExpr(l4[i])
  {
    seq(|l4|, i requires 0 <= i < |l4| => RuleExpr(l4[i]))
  }

  function L4Expr(l4: seq<PS.L4Rule>): Expr {
    OrTrue(RuleExprs(l4))
  }

  function BoolPart(a: Attr, v: Option<bool>): seq<Expr> {
    if v.None? then []
    else [And(Has(Var(Principal), a), Eq(Get(Var(Principal), a), Lit(Bool(v.value))))]
  }

  function OsPart(min: Option<string>): seq<Expr> {
    if min.None? then [] else
    var (major, minor) := ParseOsVersion(min.value);
    [And(Has(Var(Principal), OsVersionMajor),
         Or(Gt(Get(Var(Principal), OsVersionMajor), Lit(Long(major))),
            And(Eq(Get(Var(Principal), OsVersionMajor), Lit(Long(major))),
                Ge(Get(Var(Principal), OsVersionMinor), Lit(Long(minor))))))]
  }

  function HoursPart(max: Option<PS.u32>): seq<Expr> {
    if max.None? then []
    else [And(Has(Var(Principal), HoursSinceUpdate),
              Le(Get(Var(Principal), HoursSinceUpdate), Lit(Long(max.value))))]
  }

  function PostureParts(p: PS.Posture): seq<Expr> {
    BoolPart(FirewallEnabled, p.firewallEnabled) + BoolPart(DiskEncrypted, p.diskEncrypted)
    + BoolPart(ScreenLockEnabled, p.screenLockEnabled) + OsPart(p.minOsVersion) + HoursPart(p.maxHoursSinceUpdate)
  }

  function AttestationPart(a: Option<PS.AttestationRequirement>): seq<Expr> {
    When(a == Some(PS.Verified), Eq(Get(Var(Principal), Attestation), Lit(Str("verified"))))
  }

  function RiskPart(max: Option<PS.u8>): seq<Expr> {
    if max.None? then [] else [Le(Get(Var(Principal), RiskScore), Lit(Long(max.value)))]
  }

  function ConditionParts(c: PS.Conditions): seq<Expr> {
    (if c.posture.Some? then PostureParts(c.posture.value) else [])
    + AttestationPart(c.attestation) + RiskPart(c.maxRiskScore)
  }

  function ConditionExpr(c: PS.Conditions): Expr {
    var parts := ConditionParts(c);
    if parts == [] then TRUE else AndAll(parts)
  }

  function WhenExpr(p: PS.PolicySpec): Expr {
    And(And(And(SourceExpr(p.source), DestExpr(p.destination)), L4Expr(p.l4)), ConditionExpr(p.conditions))
  }

  // ---------- what the document says ----------

  datatype Destination = ToDevice(id: Uuid) | ToIp

  datatype DecisionRequest = DecisionRequest(
    device: Uuid, destination: Destination, dstIp: Ip, protocol: PS.Protocol, dstPort: PS.u16, admission: bool)

  ghost predicate InSomePod(data: SnapshotData, d: DeviceEntity, pods: seq<Uuid>) {
    exists p :: p in pods && InPod(data, d, p)
  }

  predicate OfSomeClass(d: DeviceEntity, classes: seq<Uuid>) {
    d.attrs.class_.Some? && d.attrs.class_.value in classes
  }

  ghost predicate SourceMatches(data: SnapshotData, s: PS.Selector, d: DeviceEntity) {
    s.any || InSomePod(data, d, s.pods) || OfSomeClass(d, s.deviceClasses) || d.id in s.devices
  }

  predicate InSomeCidr(ip: Ip, cidrs: seq<IpNet>) {
    exists c | c in cidrs :: Contains(c, ip)
  }

  ghost predicate DestinationMatches(data: SnapshotData, s: PS.Selector, req: DecisionRequest) {
    || s.any
    || InSomeCidr(req.dstIp, s.cidrs)
    || (req.destination.ToDevice? &&
        var d := FindDevice(data.devices, req.destination.id);
        || req.destination.id in s.devices
        || (d.Some? && (InSomePod(data, d.value, s.pods) || OfSomeClass(d.value, s.deviceClasses))))
  }

  predicate RuleMatches(rule: PS.L4Rule, req: DecisionRequest) {
    || rule.protocol.Any?
    || (req.protocol == rule.protocol && rule.ports.Contains(req.dstPort))
  }

  /** No rules means any traffic; an admission question ignores protocol and port. */
  predicate L4Matches(l4: seq<PS.L4Rule>, req: DecisionRequest) {
    l4 == [] || req.admission || exists rule | rule in l4 :: RuleMatches(rule, req)
  }

  /** A required setting must be reported, and reported as required. */
  predicate Reports(required: Option<bool>, actual: Option<bool>) {
    required.None? || actual == required
  }

  predicate VersionAtLeast(v: (int, int), min: (int, int)) {
    v.0 > min.0 || (v.0 == min.0 && v.1 >= min.1)
  }

  predicate PostureMet(p: PS.Posture, d: DeviceAttrs, now: int) {
    && Reports(p.firewallEnabled, d.firewallEnabled)
    && Reports(p.diskEncrypted, d.diskEncrypted)
    && Reports(p.screenLockEnabled, d.screenLockEnabled)
    && (p.minOsVersion.Some? ==>
          d.osVersion.Some? && VersionAtLeast(ParseOsVersion(d.osVersion.value), ParseOsVersion(p.minOsVersion.value)))
    && (p.maxHoursSinceUpdate.Some? ==>
          d.lastUpdateUnix.Some? && HoursSince(now, d.lastUpdateUnix.value) <= p.maxHoursSinceUpdate.value)
  }

  predicate ConditionsMet(c: PS.Conditions, d: DeviceAttrs, now: int) {
    && (c.posture.Some? ==> PostureMet(c.posture.value, d, now))
    && (c.attestation == Some(PS.Verified) ==> d.attestation == "verified")
    && (c.maxRiskScore.Some? ==> d.riskScore <= c.maxRiskScore.value)
  }

  ghost predicate Matches(data: SnapshotData, now: int, p: PS.PolicySpec, d: DeviceEntity, req: DecisionRequest) {
    && SourceMatches(data, p.source, d)
    && DestinationMatches(data, p.destination, req)
    && L4Matches(p.l4, req)
    && ConditionsMet(p.conditions, d.attrs, now)
  }

  // ---------- each clause keeps its meaning ----------

  function RequestEnv(req: DecisionRequest, store: Store): Env {
    Env(Device(req.device),
        if req.destination.ToDevice? then Device(req.destination.id) else External,
        Context(ProtocolName(req.protocol), req.dstPort, req.dstIp, req.admission),
        store)
  }

  /** `x in [refs]` on a device: some reference is the device itself or something it belongs to. */
  lemma DeviceInRefs(data: SnapshotData, now: int, env: Env, x: Variable, id: Uuid, refs: seq<Uid>)
    requires Mirrors(env.store, data, now) && Lookup(x, env) == EntityValue(Device(id))
    ensures Yields(InAny(Var(x), refs), env, RefersTo(data, id, refs))
  {
    forall u | u in refs
      ensures Descends(env.store, Device(id), u) <==> u == Device(id) || KnownIn(data, id, u)
    {
      ReachFromDevice(data, now, env.store, id, u);
    }
    assert RefersTo(data, id, refs) <==> exists u | u in refs :: Descends(env.store, Device(id), u);
  }

  ghost predicate KnownIn(data: SnapshotData, id: Uuid, u: Uid) {
    FindDevice(data.devices, id).Some? && BelongsTo(data, FindDevice(data.devices, id).value, u)
  }

  ghost predicate RefersTo(data: SnapshotData, id: Uuid, refs: seq<Uid>) {
    exists u :: u in refs && (u == Device(id) || KnownIn(data, id, u))
  }

  lemma RefersToPods(data: SnapshotData, id: Uuid, pods: seq<Uuid>)
    ensures RefersTo(data, id, PodRefs(pods)) <==>
            FindDevice(data.devices, id).Some? && InSomePod(data, FindDevice(data.devices, id).value, pods)
  {
    var found := FindDevice(data.devices, id);
    if found.Some? {
      if p :| p in pods && InPod(data, found.value, p) {
        assert Pod(p) in PodRefs(pods) && KnownIn(data, id, Pod(p));
      }
    }
  }

  lemma RefersToClasses(data: SnapshotData, id: Uuid, classes: seq<Uuid>)
    ensures RefersTo(data, id, ClassRefs(classes)) <==>
            FindDevice(data.devices, id).Some? && OfSomeClass(FindDevice(data.devices, id).value, classes)
  {
    var found := FindDevice(data.devices, id);
    if found.Some? && OfSomeClass(found.value, classes) {
      var c := DeviceClass(found.value.attrs.class_.value);
      assert c in ClassRefs(classes) && KnownIn(data, id, c);
    }
  }

  lemma RefersToDevices(data: SnapshotData, id: Uuid, devices: seq<Uuid>)
    ensures RefersTo(data, id, DeviceRefs(devices)) <==> id in devices
  {
    if id in devices { assert Device(id) in DeviceRefs(devices); }
  }

  lemma WhenPart(c: bool, e: Expr, env: Env, b: bool)
    requires Yields(e, env, b)
    ensures Truths(When(c, e), env)
    ensures AnyTrue(When(c, e), env) == (c && b) && AllTrue(When(c, e), env) == (c ==> b)
  {
    SinglePart(e, env, b);
  }

  lemma InPart(data: SnapshotData, now: int, env: Env, x: Variable, id: Uuid, c: bool, refs: seq<Uid>)
    requires Mirrors(env.store, data, now) && Lookup(x, env) == EntityValue(Device(id))
    ensures Truths(When(c, InAny(Var(x), refs)), env)
    ensures AnyTrue(When(c, InAny(Var(x), refs)), env) == (c && RefersTo(data, id, refs))
  {
    DeviceInRefs(data, now, env, x, id, refs);
    WhenPart(c, InAny(Var(x), refs), env, RefersTo(data, id, refs));
  }

  lemma SourceMeans(data: SnapshotData, now: int, env: Env, d: DeviceEntity, s: PS.Selector)
    requires Mirrors(env.store, data, now) && env.principal == Device(d.id)
    requires FindDevice(data.devices, d.id) == Some(d)
    requires !s.IsEmpty() && s.cidrs == []
    ensures Yields(SourceExpr(s), env, SourceMatches(data, s, d))
  {
    if !s.any {
      InPart(data, now, env, Principal, d.id, s.pods != [], PodRefs(s.pods));
      RefersToPods(data, d.id, s.pods);
      InPart(data, now, env, Principal, d.id, s.deviceClasses != [], ClassRefs(s.deviceClasses));
      RefersToClasses(data, d.id, s.deviceClasses);
      InPart(data, now, env, Principal, d.id, s.devices != [], DeviceRefs(s.devices));
      RefersToDevices(data, d.id, s.devices);
      var a := When(s.pods != [], InAny(Var(Principal), PodRefs(s.pods)));
      var b := When(s.deviceClasses != [], InAny(Var(Principal), ClassRefs(s.deviceClasses)));
      var c := When(s.devices != [], InAny(Var(Principal), DeviceRefs(s.devices)));
      JoinParts(a, b, env);
      JoinParts(a + b, c, env);
      OrAllYields(SourceParts(s), env);
    }
  }

  lemma CidrChecksMean(env: Env, cidrs: seq<IpNet>)
    requires cidrs != []
    ensures Yields(OrAll(CidrChecks(cidrs)), env, InSomeCidr(env.context.dstIp, cidrs))
  {
    var checks := CidrChecks(cidrs);
    forall i | 0 <= i < |cidrs|
      ensures Yields(checks[i], env, Contains(cidrs[i], env.context.dstIp))
    {
      InRangeIsContains(env.context.dstIp, cidrs[i]);
    }
    assert Truths(checks, env);
    if c :| c in cidrs && Contains(c, env.context.dstIp) {
      var i :| 0 <= i < |cidrs| && cidrs[i] == c;
      assert checks[i] in checks;
    }
    OrAllYields(checks, env);
  }

  lemma CidrPartsMean(env: Env, cidrs: seq<IpNet>)
    requires env.resource == External || env.resource.Device?
    ensures Truths(CidrParts(cidrs), env)
    ensures AnyTrue(CidrParts(cidrs), env) == InSomeCidr(env.context.dstIp, cidrs)
  {
    if cidrs != [] {
      CidrChecksMean(env, cidrs);
      var inside := InSomeCidr(env.context.dstIp, cidrs);
      var parts := CidrParts(cidrs);
      AndYields(parts[0].l, parts[0].r, env, env.resource == External, inside);
      AndYields(parts[1].l, parts[1].r, env, env.resource.Device?, inside);
      SinglePart(parts[0], env, env.resource == External && inside);
      SinglePart(parts[1], env, env.resource.Device? && inside);
      JoinParts([parts[0]], [parts[1]], env);
      assert parts == [parts[0]] + [parts[1]];
    }
  }

  /** A destination that names no device class, or matches anything anyway. */
  predicate NamesNoClass(s: PS.Selector) {
    s.any || s.deviceClasses == []
  }

  /** What the compiler makes of a destination: device classes are dropped, and a destination
      that named nothing else matches everything. */
  function Honoured(s: PS.Selector): (r: PS.Selector)
    ensures NamesNoClass(s) ==> r == s
    ensures NamesNoClass(r)
  {
    if NamesNoClass(s) then s
    else if s.pods == [] && s.devices == [] && s.cidrs == [] then s.(any := true)
    else s.(deviceClasses := [])
  }

  function HonouredSpec(p: PS.PolicySpec): (r: PS.PolicySpec)
    ensures NamesNoClass(p.destination) ==> r == p
  {
    p.(destination := Honoured(p.destination))
  }

  lemma ExternalInPart(data: SnapshotData, now: int, env: Env, c: bool, refs: seq<Uid>)
    requires Mirrors(env.store, data, now) && env.resource == External && External !in refs
    ensures Truths(When(c, InAny(Var(Resource), refs)), env)
    ensures !AnyTrue(When(c, InAny(Var(Resource), refs)), env)
  {
    forall u | u in refs ensures !Descends(env.store, External, u) {
      ReachFromExternal(data, now, env.store, u);
    }
    WhenPart(c, InAny(Var(Resource), refs), env, false);
  }

  lemma DestPartsMean(data: SnapshotData, now: int, store: Store, req: DecisionRequest, s: PS.Selector)
    requires Mirrors(store, data, now)
    ensures var env := RequestEnv(req, store);
            Truths(DestParts(s), env) &&
            (!s.any ==> AnyTrue(DestParts(s), env) == DestinationMatches(data, s.(deviceClasses := []), req))
  {
    var env := RequestEnv(req, store);
    var a := When(s.pods != [], InAny(Var(Resource), PodRefs(s.pods)));
    var b := When(s.devices != [], InAny(Var(Resource), DeviceRefs(s.devices)));
    CidrPartsMean(env, s.cidrs);
    match req.destination {
      case ToDevice(id) =>
        InPart(data, now, env, Resource, id, s.pods != [], PodRefs(s.pods));
        RefersToPods(data, id, s.pods);
        InPart(data, now, env, Resource, id, s.devices != [], DeviceRefs(s.devices));
        RefersToDevices(data, id, s.devices);
      case ToIp =>
        ExternalInPart(data, now, env, s.pods != [], PodRefs(s.pods));
        ExternalInPart(data, now, env, s.devices != [], DeviceRefs(s.devices));
    }
    JoinParts(a, b, env);
    JoinParts(a + b, CidrParts(s.cidrs), env);
  }

  lemma DestMeans(data: SnapshotData, now: int, store: Store, req: DecisionRequest, s: PS.Selector)
    requires Mirrors(store, data, now)
    requires !s.IsEmpty()
    ensures Yields(DestExpr(s), RequestEnv(req, store), DestinationMatches(data, Honoured(s), req))
  {
    if !s.any && DestParts(s) != [] {
      DestPartsMean(data, now, store, req, s);
      assert Honoured(s) == s.(deviceClasses := []);
      OrAllYields(DestParts(s), RequestEnv(req, store));
    }
  }

  lemma NamesDiffer(p: PS.Protocol, q: PS.Protocol)
    ensures ProtocolName(p) == ProtocolName(q) <==> p == q
  {
    assert "tcp"[0] == 't' && "udp"[0] == 'u' && "icmp"[0] == 'i' && "any"[0] == 'a';
  }

  lemma PortCheckMeans(env: Env, port: PS.u16, r: PS.PortRange)
    requires env.context.dstPort == port
    ensures Yields(PortCheck(r), env, r.Contains(port))
  {
    if r.start != r.end {
      AndYields(PortCheck(r).l, PortCheck(r).r, env, port >= r.start, port <= r.end);
    }
  }

  lemma PortChecksMean(env: Env, port: PS.u16, ranges: seq<PS.PortRange>)
    requires ranges != [] && env.context.dstPort == port
    ensures Yields(OrAll(PortChecks(ranges)), env, PS.PortSet(ranges).Contains(port))
  {
    var checks := PortChecks(ranges);
    forall i | 0 <= i < |ranges| ensures Yields(checks[i], env, ranges[i].Contains(port)) {
      PortCheckMeans(env, port, ranges[i]);
    }
    assert Truths(checks, env);
    if r :| r in ranges && r.Contains(port) {
      var i :| 0 <= i < |ranges| && ranges[i] == r;
      assert checks[i] in checks;
    }
    OrAllYields(checks, env);
  }

  lemma RuleMeans(store: Store, req: DecisionRequest, rule: PS.L4Rule)
    requires PS.PortsFitProtocol(rule)
    ensures Yields(RuleExpr(rule), RequestEnv(req, store), req.admission || RuleMatches(rule, req))
  {
    var env := RequestEnv(req, store);
    NamesDiffer(req.protocol, rule.protocol);
    assert Yields(ProtocolCheck(rule.protocol), env, req.protocol == rule.protocol);
    if !rule.ports.IsAll() {
      PortChecksMean(env, req.dstPort, rule.ports.ranges);
      AndYields(ProtocolCheck(rule.protocol), OrAll(PortChecks(rule.ports.ranges)), env,
                req.protocol == rule.protocol, rule.ports.Contains(req.dstPort));
    }
    OrYields(Var(Admission), RuleBase(rule), env, req.admission, RuleMatches(rule, req));
  }

  lemma L4Means(store: Store, req: DecisionRequest, l4: seq<PS.L4Rule>)
    requires forall rule :: rule in l4 ==> PS.PortsFitProtocol(rule)
    ensures Yields(L4Expr(l4), RequestEnv(req, store), L4Matches(l4, req))
  {
    var env := RequestEnv(req, store);
    var exprs := RuleExprs(l4);
    forall i | 0 <= i < |l4|
      ensures Yields(exprs[i], env, req.admission || RuleMatches(l4[i], req))
    {
      RuleMeans(store, req, l4[i]);
    }
    if l4 != [] {
      assert Truths(exprs, env);
      assert AnyTrue(exprs, env) <==> L4Matches(l4, req) by {
        if req.admission { assert exprs[0] in exprs; }
        if rule :| rule in l4 && RuleMatches(rule, req) {
          var i :| 0 <= i < |l4| && l4[i] == rule;
          assert exprs[i] in exprs;
        }
      }
      OrAllYields(exprs, env);
    }
  }

  // ---------- conditions ----------

  /** The principal's attributes are the device's, as reported at `now`. */
  predicate Describes(env: Env, d: DeviceAttrs, now: int) {
    env.principal in env.store && env.store[env.principal].attrs == ReportedAttributes(d, now)
  }

  lemma BoolPartMeans(env: Env, a: Attr, required: Option<bool>, actual: Option<bool>)
    requires env.principal in env.store && env.store[env.principal].attrs.Find(a) == OptionalBool(actual)
    ensures Truths(BoolPart(a, required), env)
    ensures AllTrue(BoolPart(a, required), env) == Reports(required, actual)
  {
    if required.Some? {
      var e := BoolPart(a, required)[0];
      PrincipalAttribute(env, a);
      AndYields(e.l, e.r, env, actual.Some?, Reports(required, actual));
      SinglePart(e, env, Reports(required, actual));
    }
  }

  lemma OsPartMeans(env: Env, d: DeviceAttrs, now: int, min: Option<string>)
    requires Describes(env, d, now)
    ensures Truths(OsPart(min), env)
    ensures AllTrue(OsPart(min), env) ==
            (min.Some? ==>
               d.osVersion.Some? && VersionAtLeast(ParseOsVersion(d.osVersion.value), ParseOsVersion(min.value)))
  {
    if min.Some? {
      var e := OsPart(min)[0];
      PrincipalAttribute(env, OsVersionMajor);
      PrincipalAttribute(env, OsVersionMinor);
      if d.osVersion.Some? {
        var v, m := ParseOsVersion(d.osVersion.value), ParseOsVersion(min.value);
        AndYields(e.r.r.l, e.r.r.r, env, v.0 == m.0, v.1 >= m.1);
        OrYields(e.r.l, e.r.r, env, v.0 > m.0, v.0 == m.0 && v.1 >= m.1);
        AndYields(e.l, e.r, env, true, VersionAtLeast(v, m));
        SinglePart(e, env, VersionAtLeast(v, m));
      } else {
        AndYields(e.l, e.r, env, false, false);
        SinglePart(e, env, false);
      }
    }
  }

  lemma HoursPartMeans(env: Env, d: DeviceAttrs, now: int, max: Option<PS.u32>)
    requires Describes(env, d, now)
    ensures Truths(HoursPart(max), env)
    ensures AllTrue(HoursPart(max), env) ==
            (max.Some? ==> d.lastUpdateUnix.Some? && HoursSince(now, d.lastUpdateUnix.value) <= max.value)
  {
    if max.Some? {
      var e := HoursPart(max)[0];
      PrincipalAttribute(env, HoursSinceUpdate);
      var recent := d.lastUpdateUnix.Some? && HoursSince(now, d.lastUpdateUnix.value) <= max.value;
      AndYields(e.l, e.r, env, d.lastUpdateUnix.Some?, recent);
      SinglePart(e, env, recent);
    }
  }

  lemma PosturePartsMean(env: Env, d: DeviceAttrs, now: int, p: PS.Posture)
    requires Describes(env, d, now)
    ensures Truths(PostureParts(p), env) && AllTrue(PostureParts(p), env) == PostureMet(p, d, now)
  {
    var f, k, l := BoolPart(FirewallEnabled, p.firewallEnabled), BoolPart(DiskEncrypted, p.diskEncrypted),
                   BoolPart(ScreenLockEnabled, p.screenLockEnabled);
    var o, h := OsPart(p.minOsVersion), HoursPart(p.maxHoursSinceUpdate);
    BoolPartMeans(env, FirewallEnabled, p.firewallEnabled, d.firewallEnabled);
    BoolPartMeans(env, DiskEncrypted, p.diskEncrypted, d.diskEncrypted);
    BoolPartMeans(env, ScreenLockEnabled, p.screenLockEnabled, d.screenLockEnabled);
    OsPartMeans(env, d, now, p.minOsVersion);
    HoursPartMeans(env, d, now, p.maxHoursSinceUpdate);
    JoinParts(f, k, env);
    JoinParts(f + k, l, env);
    JoinParts(f + k + l, o, env);
    JoinParts(f + k + l + o, h, env);
  }

  lemma ConditionsMean(env: Env, d: DeviceAttrs, now: int, c: PS.Conditions)
    requires Describes(env, d, now)
    ensures Yields(ConditionExpr(c), env, ConditionsMet(c, d, now))
  {
    var p := if c.posture.Some? then PostureParts(c.posture.value) else [];
    if c.posture.Some? { PosturePartsMean(env, d, now, c.posture.value); }
    var a, r := AttestationPart(c.attestation), RiskPart(c.maxRiskScore);
    PrincipalAttribute(env, Attestation);
    PrincipalAttribute(env, RiskScore);
    WhenPart(c.attestation == Some(PS.Verified), Eq(Get(Var(Principal), Attestation), Lit(Str("verified"))), env,
             d.attestation == "verified");
    if c.maxRiskScore.Some? { SinglePart(r[0], env, d.riskScore <= c.maxRiskScore.value); }
    JoinParts(p, a, env);
    JoinParts(p + a, r, env);
    if ConditionParts(c) != [] { AndAllYields(ConditionParts(c), env); }
  }

  // ---------- the whole policy ----------

  /** A compiled policy never fails to evaluate, and is satisfied exactly when the document
      matches, read with its destination as the compiler honours it. */
  lemma CompiledPolicyMeans(tz: PS.TzDb, data: SnapshotData, now: int, store: Store, p: PS.PolicySpec,
                            d: DeviceEntity, req: DecisionRequest)
    requires PS.Validate(tz, p).Ok?
    requires EntitiesOf(data, now) == Ok(store)
    requires FindDevice(data.devices, req.device) == Some(d)
    ensures Yields(WhenExpr(p), RequestEnv(req, store), Matches(data, now, HonouredSpec(p), d, req))
  {
    StoreMirrors(data, now, store);
    var env := RequestEnv(req, store);
    SourceMeans(data, now, env, d, p.source);
    DestMeans(data, now, store, req, p.destination);
    L4Means(store, req, p.l4);
    ConditionsMean(env, d.attrs, now, p.conditions);
    ConjunctionYields(SourceExpr(p.source), DestExpr(p.destination), L4Expr(p.l4), ConditionExpr(p.conditions), env,
      SourceMatches(data, p.source, d), DestinationMatches(data, Honoured(p.destination), req), L4Matches(p.l4, req),
      ConditionsMet(p.conditions, d.attrs, now));
  }

  lemma ConjunctionYields(e: Expr, f: Expr, g: Expr, h: Expr, env: Env, a: bool, b: bool, c: bool, d: bool)
    requires Yields(e, env, a) && Yields(f, env, b) && Yields(g, env, c) && Yields(h, env, d)
    ensures Yields(And(And(And(e, f), g), h), env, a && b && c && d)
  {
    AndYields(e, f, env, a, b);
    AndYields(And(e, f), g, env, a && b, c);
    AndYields(And(And(e, f), g), h, env, a && b && c, d);
  }

  // ---------- exactly when a destination keeps its meaning ----------

  ghost predicate DestinationKept(s: PS.Selector, data: SnapshotData, now: int, store: Store, req: DecisionRequest) {
    EntitiesOf(data, now) == Ok(store) ==>
      Yields(DestExpr(s), RequestEnv(req, store), DestinationMatches(data, s, req))
  }

  ghost predicate AlwaysKept(s: PS.Selector) {
    forall data, now, store, req :: DestinationKept(s, data, now, store, req)
  }

  ghost predicate CoversAll(cidrs: seq<IpNet>) {
    forall ip: Ip :: InSomeCidr(ip, cidrs)
  }

  /** Naming a device class in a destination is harmless only when the class is not looked at:
      the selector matches anything, or its prefixes already cover every address. */
  lemma DestinationExact(s: PS.Selector)
    requires !s.IsEmpty()
    ensures AlwaysKept(s) <==> NamesNoClass(s) || CoversAll(s.cidrs)
  {
    if NamesNoClass(s) || CoversAll(s.cidrs) {
      forall data, now, store, req ensures DestinationKept(s, data, now, store, req) {
        if EntitiesOf(data, now) == Ok(store) {
          StoreMirrors(data, now, store);
          DestMeans(data, now, store, req, s);
          assert CoversAll(s.cidrs) ==> InSomeCidr(req.dstIp, s.cidrs);
        }
      }
    } else {
      var ip: Ip :| !InSomeCidr(ip, s.cidrs);
      var data, store, req := ClassOnlyWitness(s, ip);
      assert !DestinationKept(s, data, 0, store, req);
    }
  }

  lemma {:induction false} FreshId(ids: seq<Uuid>) returns (n: Uuid)
    ensures forall i :: 0 <= i < |ids| ==> ids[i] < n
  {
    if ids == [] {
      n := 0;
    } else {
      n := FreshId(ids[1..]);
      if n <= ids[0] { n := ids[0] + 1; }
    }
  }

  /** A snapshot holding one active device and nothing else but policies. */
  function OneDevice(tenant: Uuid, id: Uuid, class_: Option<Uuid>, policies: seq<PolicyEntry>): SnapshotData {
    SnapshotData(tenant, 1, 0, [], [],
      [DeviceEntity(id, [], DeviceAttrs("active", class_, None, None, None, None, None, "none", 0))], policies)
  }

  lemma OneDeviceStore(data: SnapshotData, tenant: Uuid, id: Uuid, class_: Option<Uuid>) returns (store: Store)
    requires data == OneDevice(tenant, id, class_, data.policies)
    ensures EntitiesOf(data, 0) == Ok(store)
  {
    var list := EntityList(data, 0);
    var ext, dev := (External, EntityData(NoAttributes, {})), (Device(id), DeviceData(data.devices[0], 0));
    assert list == [ext, dev];
    var first: seq<(Uid, EntityData)> := [ext];
    assert list[..1] == first && first[..0] == [];
    assert Collect(first) == Ok(map[External := ext.1]);
    store := map[External := ext.1, Device(id) := dev.1];
    assert Collect(list) == Ok(store);
    forall p | p in dev.1.parents ensures !Descends(store, p, Device(id)) {
      assert p.DeviceClass?;
    }
    assert !HasCycle(store);
  }

  /** A device of the named class, or no device at all, for which document and compiled form differ. */
  lemma ClassOnlyWitness(s: PS.Selector, ip: Ip) returns (data: SnapshotData, store: Store, req: DecisionRequest)
    requires !s.IsEmpty() && !NamesNoClass(s) && !InSomeCidr(ip, s.cidrs)
    ensures EntitiesOf(data, 0) == Ok(store)
    ensures !Yields(DestExpr(s), RequestEnv(req, store), DestinationMatches(data, s, req))
  {
    var id := FreshId(s.devices);
    data := OneDevice(0, id, Some(s.deviceClasses[0]), []);
    store := OneDeviceStore(data, 0, id, Some(s.deviceClasses[0]));
    StoreMirrors(data, 0, store);
    req := DecisionRequest(id, if DestParts(s) == [] then ToIp else ToDevice(id), ip, PS.Tcp, 0, false);
    DestMeans(data, 0, store, req, s);
  }
}
