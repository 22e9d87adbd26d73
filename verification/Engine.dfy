/** The policy engine: one tenant's snapshot, compiled and evaluated. */
module Engine {
  import opened Wrappers
  import opened Cedar
  import opened Entities
  import opened Compiler
  import opened Schedule
  import PS = PolicySpec

  // ---------- compiling a snapshot ----------

  datatype Compiled = Compiled(policies: PolicySet, activeIds: seq<Uuid>, nextChange: Option<int>)

  function Earlier(a: Option<int>, b: Option<int>): Option<int> {
    if b.None? || (a.Some? && a.value <= b.value) then a else b
  }

  /** What compilation decides about one entry, before looking at the others. */
  datatype Verdict = Bad(error: CompileError) | Skip(next: Option<int>) | Take(next: Option<int>, policy: Policy)

  datatype Item = Item(id: Uuid, verdict: Verdict)

  /** A policy outside its time window is left out; either way the window's next change counts. */
  function Examine(tz: PS.TzDb, e: PolicyEntry, now: int): Verdict {
    var valid := PS.Validate(tz, e.spec);
    if valid.Err? then Bad(Spec(valid.error)) else
    match e.spec.conditions.timeWindow
    case None => Take(None, PolicyOf(e.spec))
    case Some(window) =>
      var w := ParseWindow(tz, window);
      if w.Err? then Bad(Spec(w.error))
      else if !Active(w.value, now) then Skip(Some(NextChange(w.value, now)))
      else Take(Some(NextChange(w.value, now)), PolicyOf(e.spec))
  }

  function PolicyOf(p: PS.PolicySpec): Policy {
    Policy(if p.effect.Allow? then Permit else Forbid, WhenExpr(p))
  }

  function Add(c: Compiled, item: Item): Result<Compiled, CompileError> {
    match item.verdict
    case Bad(error) => Err(error)
    case Skip(next) => Ok(c.(nextChange := Earlier(c.nextChange, next)))
    case Take(next, policy) =>
      if item.id in c.policies then Err(DuplicatePolicy(item.id))
      else Ok(Compiled(c.policies[item.id := policy], c.activeIds + [item.id], Earlier(c.nextChange, next)))
  }

  const NOTHING := Compiled(map[], [], None)

  /** Items are added in order and the first error stops the compilation. */
  function Assemble(items: seq<Item>): Result<Compiled, CompileError> {
    if items == [] then Ok(NOTHING) else
    var before := Assemble(items[..|items| - 1]);
    if before.Err? then before else Add(before.value, items[|items| - 1])
  }

  function Items(tz: PS.TzDb, entries: seq<PolicyEntry>, now: int): (r: seq<Item>)
    ensures |r| == |entries|
    ensures forall i :: 0 <= i < |r| ==> r[i] == Item(entries[i].id, Examine(tz, entries[i], now))
  {
    seq(|entries|, i requires 0 <= i < |entries| => Item(entries[i].id, Examine(tz, entries[i], now)))
  }

  function CompileAll(tz: PS.TzDb, entries: seq<PolicyEntry>, now: int): Result<Compiled, CompileError> {
    Assemble(Items(tz, entries, now))
  }

  lemma {:induction false} ErrorStops(items: seq<Item>, i: nat)
    requires i <= |items| && Assemble(items[..i]).Err?
    ensures Assemble(items) == Assemble(items[..i])
    decreases |items|
  {
    if i == |items| {
      assert items[..i] == items;
    } else {
      var init := items[..|items| - 1];
      assert init[..i] == items[..i];
      ErrorStops(init, i);
    }
  }

  method AssembleItems(items: seq<Item>) returns (r: Result<Compiled, CompileError>)
    ensures r == Assemble(items)
  {
    var c := NOTHING;
    for i := 0 to |items|
      invariant Assemble(items[..i]) == Ok(c)
    {
      assert items[..i + 1] == items[..i] + [items[i]];
      var step := Add(c, items[i]);
      if step.Err? {
        ErrorStops(items, i + 1);
        return step;
      }
      c := step.value;
    }
    assert items[..|items|] == items;
    r := Ok(c);
  }

  method Compile(tz: PS.TzDb, data: SnapshotData, now: int) returns (r: Result<Compiled, CompileError>)
    ensures r == CompileAll(tz, data.policies, now)
  {
    r := AssembleItems(Items(tz, data.policies, now));
  }

  // ---------- what compilation selects ----------

  ghost predicate Earliest(c: Compiled, next: Option<int>) {
    next.Some? ==> c.nextChange.Some? && c.nextChange.value <= next.value
  }

  ghost predicate Entered(c: Compiled, item: Item) {
    match item.verdict
    case Bad(_) => false
    case Skip(next) => Earliest(c, next)
    case Take(next, policy) => Earliest(c, next) && item.id in c.policies && c.policies[item.id] == policy
  }

  ghost predicate Accounted(c: Compiled, items: seq<Item>, id: Uuid) {
    id in c.policies &&
    exists i :: 0 <= i < |items| && items[i].id == id && items[i].verdict.Take?
                && items[i].verdict.policy == c.policies[id]
  }

  lemma {:induction false} AssembledExactly(items: seq<Item>, c: Compiled)
    requires Assemble(items) == Ok(c)
    ensures forall i :: 0 <= i < |items| ==> Entered(c, items[i])
    ensures forall id :: id in c.policies ==> Accounted(c, items, id)
  {
    if items != [] {
      var n := |items| - 1;
      var before := Assemble(items[..n]).value;
      AssembledExactly(items[..n], before);
      forall i | 0 <= i < n ensures Entered(c, items[i]) {
        assert Entered(before, items[..n][i]);
      }
      forall id | id in c.policies ensures Accounted(c, items, id) {
        if id in before.policies {
          assert Accounted(before, items[..n], id);
          var i :| 0 <= i < n && items[..n][i].id == id && items[..n][i].verdict.Take?
                   && items[..n][i].verdict.policy == before.policies[id];
          assert items[i].id == id;
        }
      }
    }
  }

  /** Without a time window a policy always applies. */
  predicate Selected(tz: PS.TzDb, e: PolicyEntry, now: int) {
    var window := e.spec.conditions.timeWindow;
    window.None? || WindowActive(tz, window.value, now) == Ok(true)
  }

  ghost predicate Contributes(tz: PS.TzDb, e: PolicyEntry, now: int, c: Compiled) {
    && PS.Validate(tz, e.spec).Ok?
    && (Selected(tz, e, now) ==> e.id in c.policies && c.policies[e.id] == PolicyOf(e.spec))
  }

  ghost predicate ComesFrom(tz: PS.TzDb, entries: seq<PolicyEntry>, now: int, id: Uuid, policy: Policy) {
    exists e :: e in entries && e.id == id && Selected(tz, e, now) && policy == PolicyOf(e.spec)
  }

  lemma ExamineSelects(tz: PS.TzDb, e: PolicyEntry, now: int)
    ensures var v := Examine(tz, e, now);
            && (!v.Bad? ==> PS.Validate(tz, e.spec).Ok? && (v.Take? <==> Selected(tz, e, now)))
            && (v.Take? ==> v.policy == PolicyOf(e.spec))
  {
  }

  /** The compiled set holds the selected entries, all of them and nothing else. */
  lemma CompiledExactly(tz: PS.TzDb, entries: seq<PolicyEntry>, now: int, c: Compiled)
    requires CompileAll(tz, entries, now) == Ok(c)
    ensures forall e :: e in entries ==> Contributes(tz, e, now, c)
    ensures forall id :: id in c.policies ==> ComesFrom(tz, entries, now, id, c.policies[id])
  {
    var items := Items(tz, entries, now);
    AssembledExactly(items, c);
    forall e | e in entries ensures Contributes(tz, e, now, c) {
      var i :| 0 <= i < |entries| && entries[i] == e;
      EnteredContributes(tz, e, now, c, items[i]);
    }
    forall id | id in c.policies ensures ComesFrom(tz, entries, now, id, c.policies[id]) {
      AccountedComesFrom(tz, entries, now, c, items, id);
    }
  }

  lemma EnteredContributes(tz: PS.TzDb, e: PolicyEntry, now: int, c: Compiled, item: Item)
    requires item == Item(e.id, Examine(tz, e, now)) && Entered(c, item)
    ensures Contributes(tz, e, now, c)
  {
    ExamineSelects(tz, e, now);
  }

  lemma AccountedComesFrom(tz: PS.TzDb, entries: seq<PolicyEntry>, now: int, c: Compiled, items: seq<Item>, id: Uuid)
    requires items == Items(tz, entries, now) && Accounted(c, items, id)
    ensures ComesFrom(tz, entries, now, id, c.policies[id])
  {
    var i :| 0 <= i < |items| && items[i].id == id && items[i].verdict.Take?
             && items[i].verdict.policy == c.policies[id];
    ExamineSelects(tz, entries[i], now);
    assert entries[i] in entries;
  }

  // ---------- loading and deciding ----------

  datatype Loaded = Loaded(data: SnapshotData, compiled: Compiled, entities: Store, compiledAt: int)

  function LoadSnapshot(tz: PS.TzDb, tenant: Uuid, data: SnapshotData, now: int): Result<Loaded, CompileError> {
    if data.tenantId != tenant then Err(WrongTenant) else
    var compiled := CompileAll(tz, data.policies, now);
    if compiled.Err? then Err(compiled.error) else
    var entities := EntitiesOf(data, now);
    if entities.Err? then Err(entities.error)
    else Ok(Loaded(data, compiled.value, entities.value, now))
  }

  datatype Reason =
    | NoSnapshot | UnknownDevice | DeviceStatus(status: string)
    | PermittedBy | EvaluationErrors | NoMatchingPermit | ForbiddenBy

  datatype DecisionResult = DecisionResult(allow: bool, policyIds: set<Uuid>, reason: Reason, snapshotVersion: nat)

  function Denied(reason: Reason, version: nat): DecisionResult {
    DecisionResult(false, {}, reason, version)
  }

  function DecideLoaded(l: Loaded, req: DecisionRequest): DecisionResult {
    var version := l.data.version;
    match FindDevice(l.data.devices, req.device)
    case None => Denied(UnknownDevice, version)
    case Some(device) =>
      if device.attrs.status != "active" then Denied(DeviceStatus(device.attrs.status), version) else
      var response := IsAuthorized(l.compiled.policies, RequestEnv(req, l.entities));
      if response.allow then
        if response.errors == {} then DecisionResult(true, response.reason, PermittedBy, version)
        else Denied(EvaluationErrors, version)
      else if response.reason == {} then Denied(NoMatchingPermit, version)
      else DecisionResult(false, response.reason, ForbiddenBy, version)
  }

  /** The selected entries with this effect that the request matches, by id. */
  ghost function Firing(tz: PS.TzDb, data: SnapshotData, now: int, effect: PS.Effect, d: DeviceEntity,
                        req: DecisionRequest): set<Uuid> {
    set e | e in data.policies && e.spec.effect == effect && Fires(tz, data, now, e, d, req) :: e.id
  }

  ghost predicate Fires(tz: PS.TzDb, data: SnapshotData, now: int, e: PolicyEntry, d: DeviceEntity,
                        req: DecisionRequest) {
    Selected(tz, e, now) && Matches(data, now, HonouredSpec(e.spec), d, req)
  }

  lemma EntryEvaluates(tz: PS.TzDb, l: Loaded, tenant: Uuid, data: SnapshotData, now: int, e: PolicyEntry,
                       d: DeviceEntity, req: DecisionRequest)
    requires LoadSnapshot(tz, tenant, data, now) == Ok(l)
    requires FindDevice(data.devices, req.device) == Some(d)
    requires e in data.policies
    ensures Yields(PolicyOf(e.spec).when, RequestEnv(req, l.entities), Matches(data, now, HonouredSpec(e.spec), d, req))
  {
    CompiledExactly(tz, data.policies, now, l.compiled);
    assert Contributes(tz, e, now, l.compiled);
    CompiledPolicyMeans(tz, data, now, l.entities, e.spec, d, req);
  }

  lemma SatisfiedFires(tz: PS.TzDb, l: Loaded, tenant: Uuid, data: SnapshotData, now: int,
                       d: DeviceEntity, req: DecisionRequest, id: Uuid)
    requires LoadSnapshot(tz, tenant, data, now) == Ok(l)
    requires FindDevice(data.devices, req.device) == Some(d)
    requires id in l.compiled.policies
    ensures var env, policy := RequestEnv(req, l.entities), l.compiled.policies[id];
            && IsTruth(policy.when, env)
            && (Yields(policy.when, env, true) ==>
                  id in Firing(tz, data, now, if policy.effect.Permit? then PS.Allow else PS.Deny, d, req))
  {
    CompiledExactly(tz, data.policies, now, l.compiled);
    assert ComesFrom(tz, data.policies, now, id, l.compiled.policies[id]);
    var e :| e in data.policies && e.id == id && Selected(tz, e, now) && l.compiled.policies[id] == PolicyOf(e.spec);
    EntryEvaluates(tz, l, tenant, data, now, e, d, req);
  }

  lemma FiringSatisfied(tz: PS.TzDb, l: Loaded, tenant: Uuid, data: SnapshotData, now: int,
                        d: DeviceEntity, req: DecisionRequest, e: PolicyEntry)
    requires LoadSnapshot(tz, tenant, data, now) == Ok(l)
    requires FindDevice(data.devices, req.device) == Some(d)
    requires e in data.policies && Fires(tz, data, now, e, d, req)
    ensures e.id in Satisfied(l.compiled.policies, PolicyOf(e.spec).effect, RequestEnv(req, l.entities))
  {
    CompiledExactly(tz, data.policies, now, l.compiled);
    assert Contributes(tz, e, now, l.compiled);
    EntryEvaluates(tz, l, tenant, data, now, e, d, req);
  }

  /** The authorizer's satisfied policies are the firing entries, and none fails to evaluate. */
  lemma SatisfiedIsFiring(tz: PS.TzDb, l: Loaded, tenant: Uuid, data: SnapshotData, now: int,
                          d: DeviceEntity, req: DecisionRequest)
    requires LoadSnapshot(tz, tenant, data, now) == Ok(l)
    requires FindDevice(data.devices, req.device) == Some(d)
    ensures var env := RequestEnv(req, l.entities);
            && Satisfied(l.compiled.policies, Permit, env) == Firing(tz, data, now, PS.Allow, d, req)
            && Satisfied(l.compiled.policies, Forbid, env) == Firing(tz, data, now, PS.Deny, d, req)
            && Failing(l.compiled.policies, env) == {}
  {
    forall id | id in l.compiled.policies { SatisfiedFires(tz, l, tenant, data, now, d, req, id); }
    forall e | e in data.policies && Fires(tz, data, now, e, d, req) {
      FiringSatisfied(tz, l, tenant, data, now, d, req, e);
    }
  }

  ghost predicate SomeFires(tz: PS.TzDb, data: SnapshotData, now: int, effect: PS.Effect, d: DeviceEntity,
                            req: DecisionRequest) {
    exists e :: e in data.policies && e.spec.effect == effect && Fires(tz, data, now, e, d, req)
  }

  /** Default deny with explicit permits, in which any matching deny wins. */
  ghost predicate Admits(tz: PS.TzDb, data: SnapshotData, now: int, req: DecisionRequest) {
    var d := FindDevice(data.devices, req.device);
    && d.Some? && d.value.attrs.status == "active"
    && SomeFires(tz, data, now, PS.Allow, d.value, req)
    && !SomeFires(tz, data, now, PS.Deny, d.value, req)
  }

  lemma FiringNonempty(tz: PS.TzDb, data: SnapshotData, now: int, effect: PS.Effect, d: DeviceEntity,
                       req: DecisionRequest)
    ensures Firing(tz, data, now, effect, d, req) != {} <==> SomeFires(tz, data, now, effect, d, req)
  {
    if SomeFires(tz, data, now, effect, d, req) {
      var e :| e in data.policies && e.spec.effect == effect && Fires(tz, data, now, e, d, req);
      assert e.id in Firing(tz, data, now, effect, d, req);
    }
  }

  ghost function RuleDecision(tz: PS.TzDb, data: SnapshotData, now: int, req: DecisionRequest): DecisionResult {
    match FindDevice(data.devices, req.device)
    case None => Denied(UnknownDevice, data.version)
    case Some(d) =>
      if d.attrs.status != "active" then Denied(DeviceStatus(d.attrs.status), data.version)
      else FiringDecision(Firing(tz, data, now, PS.Allow, d, req), Firing(tz, data, now, PS.Deny, d, req), data.version)
  }

  function FiringDecision(permits: set<Uuid>, forbids: set<Uuid>, version: nat): DecisionResult {
    if forbids != {} then DecisionResult(false, forbids, ForbiddenBy, version)
    else if permits != {} then DecisionResult(true, permits, PermittedBy, version)
    else Denied(NoMatchingPermit, version)
  }

  /** A decision is the admission rule, reports exactly the entries that fired, and never ends in
      "evaluation errors". */
  lemma DecidesExactly(tz: PS.TzDb, tenant: Uuid, data: SnapshotData, now: int, l: Loaded, req: DecisionRequest)
    requires LoadSnapshot(tz, tenant, data, now) == Ok(l)
    ensures DecideLoaded(l, req) == RuleDecision(tz, data, now, req)
    ensures DecideLoaded(l, req).allow <==> Admits(tz, data, now, req)
    ensures !DecideLoaded(l, req).reason.EvaluationErrors?
  {
    match FindDevice(data.devices, req.device)
    case None =>
    case Some(d) =>
      SatisfiedIsFiring(tz, l, tenant, data, now, d, req);
      FiringNonempty(tz, data, now, PS.Allow, d, req);
      FiringNonempty(tz, data, now, PS.Deny, d, req);
  }

  // ---------- order, priority and added denials ----------

  /** Every entry of `a` occurs in `b`, up to its name and priority. */
  ghost predicate CoveredBy(a: seq<PolicyEntry>, b: seq<PolicyEntry>) {
    forall e :: e in a ==> exists f :: f in b && SamePolicy(e, f)
  }

  predicate SamePolicy(e: PolicyEntry, f: PolicyEntry) {
    e.id == f.id && f.spec == e.spec.(priority := f.spec.priority)
  }

  lemma SameFiring(tz: PS.TzDb, data: SnapshotData, other: seq<PolicyEntry>, now: int, e: PolicyEntry, f: PolicyEntry,
                   d: DeviceEntity, req: DecisionRequest)
    requires SamePolicy(e, f)
    ensures Fires(tz, data, now, e, d, req) <==> Fires(tz, data.(policies := other), now, f, d, req)
  {
    MatchesIgnoresPolicies(data, other, now, HonouredSpec(e.spec), HonouredSpec(f.spec), d, req);
  }

  lemma MatchesIgnoresPolicies(data: SnapshotData, other: seq<PolicyEntry>, now: int, p: PS.PolicySpec,
                               q: PS.PolicySpec, d: DeviceEntity, req: DecisionRequest)
    requires q == p.(priority := q.priority)
    ensures Matches(data, now, p, d, req) <==> Matches(data.(policies := other), now, q, d, req)
  {
    forall dev: DeviceEntity, pod: Uuid ensures InPod(data, dev, pod) <==> InPod(data.(policies := other), dev, pod) {
    }
  }

  lemma FiringCovered(tz: PS.TzDb, data: SnapshotData, other: seq<PolicyEntry>, now: int, effect: PS.Effect,
                      d: DeviceEntity, req: DecisionRequest)
    requires CoveredBy(data.policies, other)
    ensures Firing(tz, data, now, effect, d, req) <= Firing(tz, data.(policies := other), now, effect, d, req)
  {
    forall id | id in Firing(tz, data, now, effect, d, req)
      ensures id in Firing(tz, data.(policies := other), now, effect, d, req)
    {
      var e :| e in data.policies && e.spec.effect == effect && Fires(tz, data, now, e, d, req) && e.id == id;
      var f :| f in other && SamePolicy(e, f);
      SameFiring(tz, data, other, now, e, f, d, req);
    }
  }

  /** Reordering, renaming or repricing the policies changes nothing in any decision. */
  lemma OrderAndPriorityIrrelevant(tz: PS.TzDb, tenant: Uuid, data: SnapshotData, other: seq<PolicyEntry>, now: int,
                                   l: Loaded, m: Loaded, req: DecisionRequest)
    requires LoadSnapshot(tz, tenant, data, now) == Ok(l)
    requires LoadSnapshot(tz, tenant, data.(policies := other), now) == Ok(m)
    requires CoveredBy(data.policies, other) && CoveredBy(other, data.policies)
    ensures DecideLoaded(l, req) == DecideLoaded(m, req)
  {
    DecidesExactly(tz, tenant, data, now, l, req);
    DecidesExactly(tz, tenant, data.(policies := other), now, m, req);
    if FindDevice(data.devices, req.device).Some? {
      var d := FindDevice(data.devices, req.device).value;
      FiringSame(tz, data, other, now, PS.Allow, d, req);
      FiringSame(tz, data, other, now, PS.Deny, d, req);
    }
  }

  lemma FiringSame(tz: PS.TzDb, data: SnapshotData, other: seq<PolicyEntry>, now: int, effect: PS.Effect,
                   d: DeviceEntity, req: DecisionRequest)
    requires CoveredBy(data.policies, other) && CoveredBy(other, data.policies)
    ensures Firing(tz, data, now, effect, d, req) == Firing(tz, data.(policies := other), now, effect, d, req)
  {
    var data' := data.(policies := other);
    assert data'.(policies := data.policies) == data;
    FiringCovered(tz, data, other, now, effect, d, req);
    FiringCovered(tz, data', data.policies, now, effect, d, req);
  }

  /** A deny policy can only take permission away. */
  lemma AddedDenyNeverAllows(tz: PS.TzDb, tenant: Uuid, data: SnapshotData, deny: PolicyEntry, now: int,
                             l: Loaded, m: Loaded, req: DecisionRequest)
    requires deny.spec.effect.Deny?
    requires LoadSnapshot(tz, tenant, data, now) == Ok(l)
    requires LoadSnapshot(tz, tenant, data.(policies := data.policies + [deny]), now) == Ok(m)
    ensures DecideLoaded(m, req).allow ==> DecideLoaded(l, req).allow
  {
    var more := data.policies + [deny];
    DecidesExactly(tz, tenant, data, now, l, req);
    DecidesExactly(tz, tenant, data.(policies := more), now, m, req);
    if DecideLoaded(m, req).allow {
      var d := FindDevice(data.devices, req.device).value;
      forall e | e in data.policies
        ensures Fires(tz, data, now, e, d, req) <==> Fires(tz, data.(policies := more), now, e, d, req)
      {
        SameFiring(tz, data, more, now, e, e, d, req);
      }
    }
  }

  // ---------- lazy recompilation ----------

  ghost predicate ZonesRound(tz: PS.TzDb) {
    forall name :: name in tz ==> WholeMinutes(tz[name])
  }

  lemma SelectionHolds(tz: PS.TzDb, e: PolicyEntry, from: int, now: int, c: Compiled)
    requires ZonesRound(tz) && RoundsDown(from) && from <= now
    requires Entered(c, Item(e.id, Examine(tz, e, from)))
    requires c.nextChange.None? || now < c.nextChange.value
    ensures Selected(tz, e, now) == Selected(tz, e, from)
    ensures Examine(tz, e, now) == Examine(tz, e, from).(next := Examine(tz, e, now).next)
  {
    match e.spec.conditions.timeWindow
    case None =>
    case Some(window) =>
      var w := ParseWindow(tz, window).value;
      NextChangeIsNext(w, from);
  }

  lemma {:induction false} AssembleIgnoresNext(a: seq<Item>, b: seq<Item>, c: Compiled)
    requires |a| == |b| && Assemble(a) == Ok(c)
    requires forall i :: 0 <= i < |a| ==> a[i].id == b[i].id && !a[i].verdict.Bad? && !b[i].verdict.Bad?
                                          && b[i].verdict == a[i].verdict.(next := b[i].verdict.next)
    ensures Assemble(b).Ok? && Assemble(b).value.policies == c.policies && Assemble(b).value.activeIds == c.activeIds
  {
    if a != [] {
      var n := |a| - 1;
      AssembleIgnoresNext(a[..n], b[..n], Assemble(a[..n]).value);
    }
  }

  /** What an engine with this content answers when asked whether to recompile. */
  predicate NeedsRecompile(inner: Option<Loaded>, now: int) {
    inner.Some? && inner.value.compiled.nextChange.Some? && now >= inner.value.compiled.nextChange.value
  }

  /** Until the engine asks to be recompiled, compiling again selects the very same policies. */
  lemma LazyRecompilationSound(tz: PS.TzDb, tenant: Uuid, data: SnapshotData, from: int, now: int, l: Loaded)
    requires ZonesRound(tz) && RoundsDown(from) && from <= now
    requires LoadSnapshot(tz, tenant, data, from) == Ok(l) && !NeedsRecompile(Some(l), now)
    ensures var again := CompileAll(tz, data.policies, now);
            again.Ok? && again.value.policies == l.compiled.policies && again.value.activeIds == l.compiled.activeIds
    ensures forall e :: e in data.policies ==> Selected(tz, e, now) == Selected(tz, e, from)
  {
    var a, b := Items(tz, data.policies, from), Items(tz, data.policies, now);
    AssembledExactly(a, l.compiled);
    forall i | 0 <= i < |a|
      ensures !a[i].verdict.Bad? && !b[i].verdict.Bad? && b[i].verdict == a[i].verdict.(next := b[i].verdict.next)
      ensures Selected(tz, data.policies[i], now) == Selected(tz, data.policies[i], from)
    {
      assert Entered(l.compiled, a[i]);
      SelectionHolds(tz, data.policies[i], from, now, l.compiled);
    }
    AssembleIgnoresNext(a, b, l.compiled);
  }

  // ---------- patching one device ----------

  function ReplaceAttrs(devices: seq<DeviceEntity>, id: Uuid, attrs: DeviceAttrs): seq<DeviceEntity> {
    if devices == [] then [DeviceEntity(id, [], attrs)]
    else if devices[0].id == id then [devices[0].(attrs := attrs)] + devices[1..]
    else [devices[0]] + ReplaceAttrs(devices[1..], id, attrs)
  }

  function Patched(data: SnapshotData, id: Uuid, attrs: DeviceAttrs): SnapshotData {
    data.(devices := ReplaceAttrs(data.devices, id, attrs))
  }

  function PatchLoaded(tz: PS.TzDb, l: Loaded, id: Uuid, attrs: DeviceAttrs, now: int): Result<Loaded, CompileError> {
    var data := Patched(l.data, id, attrs);
    var entities := EntitiesOf(data, now);
    if entities.Err? then Err(entities.error) else
    var compiled := CompileAll(tz, data.policies, now);
    if compiled.Err? then Err(compiled.error)
    else Ok(Loaded(data, compiled.value, entities.value, now))
  }

  lemma {:induction false} ReplaceAttrsFinds(devices: seq<DeviceEntity>, id: Uuid, attrs: DeviceAttrs, other: Uuid)
    ensures var after := FindDevice(ReplaceAttrs(devices, id, attrs), other);
            var before := FindDevice(devices, other);
            if other == id
            then after == Some(DeviceEntity(id, if before.Some? then before.value.pods else [], attrs))
            else after == before
  {
    if devices != [] && devices[0].id != id { ReplaceAttrsFinds(devices[1..], id, attrs, other); }
  }

  /** A patch is a reload of the same snapshot with that device's attributes replaced. */
  lemma PatchIsReload(tz: PS.TzDb, l: Loaded, id: Uuid, attrs: DeviceAttrs, now: int, m: Loaded)
    ensures PatchLoaded(tz, l, id, attrs, now) == Ok(m) <==>
            LoadSnapshot(tz, l.data.tenantId, Patched(l.data, id, attrs), now) == Ok(m)
    ensures PatchLoaded(tz, l, id, attrs, now) == Ok(m) ==>
            && m.data.version == l.data.version && m.data.policies == l.data.policies
            && FindDevice(m.data.devices, id).Some? && FindDevice(m.data.devices, id).value.attrs == attrs
  {
    ReplaceAttrsFinds(l.data.devices, id, attrs, id);
  }

  lemma PatchKeepsMatching(data: SnapshotData, id: Uuid, attrs: DeviceAttrs, now: int, p: PS.PolicySpec,
                           d: DeviceEntity, req: DecisionRequest)
    requires NamesNoClass(p.destination)
    ensures Matches(data, now, p, d, req) <==> Matches(Patched(data, id, attrs), now, p, d, req)
  {
    var data' := Patched(data, id, attrs);
    forall dev: DeviceEntity, pod: Uuid ensures InPod(data, dev, pod) <==> InPod(data', dev, pod) {
    }
    if req.destination.ToDevice? {
      ReplaceAttrsFinds(data.devices, id, attrs, req.destination.id);
      PatchKeepsPods(data, id, attrs, req.destination.id, p.destination.pods);
    }
  }

  lemma PatchKeepsPods(data: SnapshotData, id: Uuid, attrs: DeviceAttrs, target: Uuid, pods: seq<Uuid>)
    ensures var before, after := FindDevice(data.devices, target), FindDevice(Patched(data, id, attrs).devices, target);
            (before.Some? && InSomePod(data, before.value, pods)) <==>
            (after.Some? && InSomePod(Patched(data, id, attrs), after.value, pods))
  {
    ReplaceAttrsFinds(data.devices, id, attrs, target);
  }

  /** After a patch, whenever the engine was loaded before it, every other source gets the decision the
      unpatched snapshot gives at the time of the patch, whatever its destination. */
  lemma PatchDoesNotInterfere(tz: PS.TzDb, tenant: Uuid, data: SnapshotData, from: int, id: Uuid, attrs: DeviceAttrs,
                              now: int, l: Loaded, m: Loaded, req: DecisionRequest)
    requires LoadSnapshot(tz, tenant, data, from) == Ok(l)
    requires PatchLoaded(tz, l, id, attrs, now) == Ok(m)
    requires req.device != id
    ensures DecideLoaded(m, req) == RuleDecision(tz, data, now, req)
    ensures LoadSnapshot(tz, tenant, data, now).Ok? ==>
            DecideLoaded(m, req) == DecideLoaded(LoadSnapshot(tz, tenant, data, now).value, req)
  {
    var data' := Patched(data, id, attrs);
    PatchIsReload(tz, l, id, attrs, now, m);
    DecidesExactly(tz, tenant, data', now, m, req);
    PatchKeepsRule(tz, data, id, attrs, now, req);
    if LoadSnapshot(tz, tenant, data, now).Ok? {
      DecidesExactly(tz, tenant, data, now, LoadSnapshot(tz, tenant, data, now).value, req);
    }
  }

  lemma PatchKeepsRule(tz: PS.TzDb, data: SnapshotData, id: Uuid, attrs: DeviceAttrs, now: int, req: DecisionRequest)
    requires req.device != id
    ensures RuleDecision(tz, Patched(data, id, attrs), now, req) == RuleDecision(tz, data, now, req)
  {
    var data' := Patched(data, id, attrs);
    ReplaceAttrsFinds(data.devices, id, attrs, req.device);
    if FindDevice(data.devices, req.device).Some? {
      var d := FindDevice(data.devices, req.device).value;
      forall e | e in data.policies
        ensures Fires(tz, data, now, e, d, req) <==> Fires(tz, data', now, e, d, req)
      {
        PatchKeepsMatching(data, id, attrs, now, HonouredSpec(e.spec), d, req);
      }
      assert Firing(tz, data, now, PS.Allow, d, req) == Firing(tz, data', now, PS.Allow, d, req);
      assert Firing(tz, data, now, PS.Deny, d, req) == Firing(tz, data', now, PS.Deny, d, req);
    }
  }

  /** No policy looks at how long ago a device was updated, the one attribute that ages. */
  predicate Ageless(p: PS.PolicySpec) {
    p.conditions.posture.Some? ==> p.conditions.posture.value.maxHoursSinceUpdate == None
  }

  lemma AgelessMatches(data: SnapshotData, from: int, now: int, p: PS.PolicySpec, d: DeviceEntity, req: DecisionRequest)
    requires Ageless(p)
    ensures Matches(data, from, p, d, req) <==> Matches(data, now, p, d, req)
  {
  }

  lemma RuleUnchanged(tz: PS.TzDb, data: SnapshotData, from: int, now: int, req: DecisionRequest)
    requires forall e :: e in data.policies ==> Ageless(e.spec) && Selected(tz, e, now) == Selected(tz, e, from)
    ensures RuleDecision(tz, data, now, req) == RuleDecision(tz, data, from, req)
  {
    if FindDevice(data.devices, req.device).Some? {
      var d := FindDevice(data.devices, req.device).value;
      forall e | e in data.policies
        ensures Fires(tz, data, from, e, d, req) <==> Fires(tz, data, now, e, d, req)
      {
        AgelessMatches(data, from, now, HonouredSpec(e.spec), d, req);
      }
      assert Firing(tz, data, from, PS.Allow, d, req) == Firing(tz, data, now, PS.Allow, d, req);
      assert Firing(tz, data, from, PS.Deny, d, req) == Firing(tz, data, now, PS.Deny, d, req);
    }
  }

  /** If no recompile was due and no policy looks at the age of an update, that is the very decision the
      engine gave before the patch. */
  lemma PatchKeepsDecisions(tz: PS.TzDb, tenant: Uuid, data: SnapshotData, from: int, id: Uuid, attrs: DeviceAttrs,
                            now: int, l: Loaded, m: Loaded, req: DecisionRequest)
    requires LoadSnapshot(tz, tenant, data, from) == Ok(l) && PatchLoaded(tz, l, id, attrs, now) == Ok(m)
    requires req.device != id && forall e :: e in data.policies ==> Ageless(e.spec)
    requires ZonesRound(tz) && RoundsDown(from) && from <= now && !NeedsRecompile(Some(l), now)
    ensures DecideLoaded(m, req) == DecideLoaded(l, req)
  {
    PatchDoesNotInterfere(tz, tenant, data, from, id, attrs, now, l, m, req);
    LazyRecompilationSound(tz, tenant, data, from, now, l);
    RuleUnchanged(tz, data, from, now, req);
    DecidesExactly(tz, tenant, data, from, l, req);
  }

  // ---------- the engine object ----------

  class Engine {
    const tenant: Uuid
    const tz: PS.TzDb
    var inner: Option<Loaded>

    constructor Empty(tenant: Uuid, tz: PS.TzDb)
      ensures this.tenant == tenant && this.tz == tz && inner == None
    {
      this.tenant := tenant;
      this.tz := tz;
      inner := None;
    }

    function Version(): nat
      reads this
    {
      if inner.Some? then inner.value.data.version else 0
    }

    predicate HasPolicies()
      reads this
    {
      inner.Some? && inner.value.data.policies != []
    }

    function Decide(req: DecisionRequest): DecisionResult
      reads this
    {
      if inner.None? then Denied(NoSnapshot, 0) else DecideLoaded(inner.value, req)
    }

    /** A failed load leaves the engine as it was. */
    method Load(data: SnapshotData, now: int) returns (r: Result<(), CompileError>)
      modifies this
      ensures match LoadSnapshot(tz, tenant, data, now)
              case Ok(l) => r == Ok(()) && inner == Some(l)
              case Err(e) => r == Err(e) && inner == old(inner)
    {
      if data.tenantId != tenant { return Err(WrongTenant); }
      var compiled := Compile(tz, data, now);
      if compiled.Err? { return Err(compiled.error); }
      var entities := BuildEntities(data, now);
      if entities.Err? { return Err(entities.error); }
      inner := Some(Loaded(data, compiled.value, entities.value, now));
      r := Ok(());
    }

    method PatchDevice(id: Uuid, attrs: DeviceAttrs, now: int) returns (r: Result<(), CompileError>)
      modifies this
      ensures old(inner).None? ==> r == Err(NotLoaded) && inner == None
      ensures old(inner).Some? ==>
              match PatchLoaded(tz, old(inner).value, id, attrs, now)
              case Ok(l) => r == Ok(()) && inner == Some(l)
              case Err(e) => r == Err(e) && inner == old(inner)
    {
      if inner.None? { return Err(NotLoaded); }
      var data := Patched(inner.value.data, id, attrs);
      var entities := BuildEntities(data, now);
      if entities.Err? { return Err(entities.error); }
      var compiled := Compile(tz, data, now);
      if compiled.Err? { return Err(compiled.error); }
      inner := Some(Loaded(data, compiled.value, entities.value, now));
      r := Ok(());
    }

    method Recompile(now: int) returns (r: Result<(), CompileError>)
      modifies this
      ensures old(inner).None? ==> r == Ok(()) && inner == None
      ensures old(inner).Some? ==>
              match LoadSnapshot(tz, tenant, old(inner).value.data, now)
              case Ok(l) => r == Ok(()) && inner == Some(l)
              case Err(e) => r == Err(e) && inner == old(inner)
    {
      if inner.None? { return Ok(()); }
      r := Load(inner.value.data, now);
    }
  }
}
