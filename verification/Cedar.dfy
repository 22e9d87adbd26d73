/** The part of the Cedar policy language that compiled policies use: expressions whose
    evaluation can fail, an entity store whose `in` is reflexive and transitive, and the
    authorizer, in which a failing policy is skipped and a satisfied forbid wins. */
module Cedar {
  import opened Wrappers
  import opened Net

  type Uuid = nat

  datatype EntityType = PodType | DeviceClassType | DeviceType | NetworkType

  datatype Uid = Pod(id: Uuid) | DeviceClass(id: Uuid) | Device(id: Uuid) | External {
    function Type(): EntityType {
      match this
      case Pod(_) => PodType
      case DeviceClass(_) => DeviceClassType
      case Device(_) => DeviceType
      case External => NetworkType
    }
  }

  datatype Attr =
    | Status | Attestation | RiskScore
    | FirewallEnabled | DiskEncrypted | ScreenLockEnabled
    | OsVersionMajor | OsVersionMinor | HoursSinceUpdate

  datatype Value = Bool(b: bool) | Long(i: int) | Str(s: string) | IpValue(ip: Ip) | EntityValue(uid: Uid)

  /** The schema gives attributes to devices only; those marked optional may be absent. */
  datatype Attributes =
    | NoAttributes
    | DeviceRecord(status: string, attestation: string, riskScore: int,
                   firewallEnabled: Option<bool>, diskEncrypted: Option<bool>, screenLockEnabled: Option<bool>,
                   osVersion: Option<(int, int)>, hoursSinceUpdate: Option<int>) {
    function Find(a: Attr): Option<Value> {
      if NoAttributes? then None else
      match a
      case Status => Some(Str(status))
      case Attestation => Some(Str(attestation))
      case RiskScore => Some(Long(riskScore))
      case FirewallEnabled => OptionalBool(firewallEnabled)
      case DiskEncrypted => OptionalBool(diskEncrypted)
      case ScreenLockEnabled => OptionalBool(screenLockEnabled)
      case OsVersionMajor => if osVersion.Some? then Some(Long(osVersion.value.0)) else None
      case OsVersionMinor => if osVersion.Some? then Some(Long(osVersion.value.1)) else None
      case HoursSinceUpdate => if hoursSinceUpdate.Some? then Some(Long(hoursSinceUpdate.value)) else None
    }
  }

  function OptionalBool(v: Option<bool>): Option<Value> {
    if v.Some? then Some(Bool(v.value)) else None
  }

  datatype EntityData = EntityData(attrs: Attributes, parents: set<Uid>)

  type Store = map<Uid, EntityData>

  datatype Context = Context(protocol: string, dstPort: nat, dstIp: Ip, admission: bool)

  datatype Env = Env(principal: Uid, resource: Uid, context: Context, store: Store)

  datatype Variable = Principal | Resource | Protocol | DstPort | DstIp | Admission

  datatype Expr =
    | Lit(v: Value)
    | Var(x: Variable)
    | Get(e: Expr, a: Attr)
    | Has(e: Expr, a: Attr)
    | And(l: Expr, r: Expr)
    | Or(l: Expr, r: Expr)
    | Eq(l: Expr, r: Expr)
    | Gt(l: Expr, r: Expr)
    | Ge(l: Expr, r: Expr)
    | Le(l: Expr, r: Expr)
    | InAny(e: Expr, uids: seq<Uid>)
    | Is(e: Expr, ty: EntityType)
    | IsInRange(e: Expr, net: IpNet)

  datatype EvalError = TypeError | NoSuchEntity | NoSuchAttribute

  type Outcome = Result<Value, EvalError>

  // ---------- the entity hierarchy ----------

  /** Depth-first search up the parent edges, never visiting an entity twice. */
  predicate Descends(store: Store, a: Uid, b: Uid)
    decreases |store|
  {
    a == b ||
    (a in store && RemovalShrinks(store, a) &&
     exists p | p in store[a].parents :: Descends(store - {a}, p, b))
  }

  predicate RemovalShrinks(store: Store, a: Uid)
    requires a in store
    ensures |store - {a}| < |store|
    ensures RemovalShrinks(store, a)
  {
    assert (store - {a}).Keys == store.Keys - {a};
    assert |(store - {a}).Keys| == |store - {a}|;
    assert |store.Keys| == |store|;
    true
  }

  ghost predicate IsPath(store: Store, path: seq<Uid>) {
    path != [] &&
    forall i :: 0 <= i < |path| - 1 ==> path[i] in store && path[i + 1] in store[path[i]].parents
  }

  /** What `in` means: some chain of parent edges, possibly empty, leads from a to b. */
  ghost predicate Reaches(store: Store, a: Uid, b: Uid) {
    exists path :: IsPath(store, path) && path[0] == a && path[|path| - 1] == b
  }

  lemma {:induction false} DescendsHasPath(store: Store, a: Uid, b: Uid) returns (path: seq<Uid>)
    requires Descends(store, a, b)
    ensures IsPath(store, path) && path[0] == a && path[|path| - 1] == b
    decreases |store|
  {
    if a == b {
      path := [a];
    } else {
      assert RemovalShrinks(store, a);
      var p :| p in store[a].parents && Descends(store - {a}, p, b);
      var rest := DescendsHasPath(store - {a}, p, b);
      path := [a] + rest;
    }
  }

  /** A path that comes back to its start can be cut there, so the search may forget the start. */
  lemma {:induction false} PathDescends(store: Store, path: seq<Uid>)
    requires IsPath(store, path)
    ensures Descends(store, path[0], path[|path| - 1])
    decreases |store|, |path|
  {
    var a, b := path[0], path[|path| - 1];
    if a != b {
      var rest := path[1..];
      if k :| 0 <= k < |rest| && rest[k] == a {
        PathDescends(store, rest[k..]);
      } else {
        assert RemovalShrinks(store, a);
        assert path[1] in store[path[0]].parents;
        forall i | 0 <= i < |rest| - 1
          ensures rest[i] in store - {a} && rest[i + 1] in (store - {a})[rest[i]].parents
        {
          assert path[i + 1] in store && path[i + 1 + 1] in store[path[i + 1]].parents;
        }
        PathDescends(store - {a}, rest);
      }
    }
  }

  lemma DescendsIsReaches(store: Store, a: Uid, b: Uid)
    ensures Descends(store, a, b) <==> Reaches(store, a, b)
  {
    if Descends(store, a, b) {
      var path := DescendsHasPath(store, a, b);
    }
    if Reaches(store, a, b) {
      var path :| IsPath(store, path) && path[0] == a && path[|path| - 1] == b;
      PathDescends(store, path);
    }
  }

  // ---------- evaluation ----------

  function Lookup(x: Variable, env: Env): Value {
    match x
    case Principal => EntityValue(env.principal)
    case Resource => EntityValue(env.resource)
    case Protocol => Str(env.context.protocol)
    case DstPort => Long(env.context.dstPort)
    case DstIp => IpValue(env.context.dstIp)
    case Admission => Bool(env.context.admission)
  }

  function Compare(l: Outcome, r: Outcome, op: (int, int) -> bool): Outcome {
    if l.Err? then l else if r.Err? then r
    else if l.value.Long? && r.value.Long? then Ok(Bool(op(l.value.i, r.value.i)))
    else Err(TypeError)
  }

  function Eval(e: Expr, env: Env): Outcome {
    match e
    case Lit(v) => Ok(v)
    case Var(x) => Ok(Lookup(x, env))
    case Get(e, a) =>
      var v := Eval(e, env);
      if v.Err? then v
      else if !v.value.EntityValue? then Err(TypeError)
      else if v.value.uid !in env.store then Err(NoSuchEntity)
      else
        var found := env.store[v.value.uid].attrs.Find(a);
        if found.None? then Err(NoSuchAttribute) else Ok(found.value)
    case Has(e, a) =>
      var v := Eval(e, env);
      if v.Err? then v
      else if !v.value.EntityValue? then Err(TypeError)
      else Ok(Bool(v.value.uid in env.store && env.store[v.value.uid].attrs.Find(a).Some?))
    case And(l, r) =>
      var v := Eval(l, env);
      if v.Err? then v
      else if !v.value.Bool? then Err(TypeError)
      else if !v.value.b then v
      else
        var w := Eval(r, env);
        if w.Ok? && !w.value.Bool? then Err(TypeError) else w
    case Or(l, r) =>
      var v := Eval(l, env);
      if v.Err? then v
      else if !v.value.Bool? then Err(TypeError)
      else if v.value.b then v
      else
        var w := Eval(r, env);
        if w.Ok? && !w.value.Bool? then Err(TypeError) else w
    case Eq(l, r) =>
      var v := Eval(l, env);
      var w := Eval(r, env);
      if v.Err? then v else if w.Err? then w else Ok(Bool(v.value == w.value))
    case Gt(l, r) => Compare(Eval(l, env), Eval(r, env), (x, y) => x > y)
    case Ge(l, r) => Compare(Eval(l, env), Eval(r, env), (x, y) => x >= y)
    case Le(l, r) => Compare(Eval(l, env), Eval(r, env), (x, y) => x <= y)
    case InAny(e, uids) =>
      var v := Eval(e, env);
      if v.Err? then v
      else if !v.value.EntityValue? then Err(TypeError)
      else Ok(Bool(exists u | u in uids :: Descends(env.store, v.value.uid, u)))
    case Is(e, ty) =>
      var v := Eval(e, env);
      if v.Err? then v
      else if !v.value.EntityValue? then Err(TypeError)
      else Ok(Bool(v.value.uid.Type() == ty))
    case IsInRange(e, net) =>
      var v := Eval(e, env);
      if v.Err? then v
      else if !v.value.IpValue? then Err(TypeError)
      else Ok(Bool(InRange(v.value.ip, net)))
  }

  /** `e` evaluates, without error, to the truth value `b`. */
  predicate Yields(e: Expr, env: Env, b: bool) {
    Eval(e, env) == Ok(Bool(b))
  }

  lemma AndYields(l: Expr, r: Expr, env: Env, a: bool, b: bool)
    requires Yields(l, env, a) && (a ==> Yields(r, env, b))
    ensures Yields(And(l, r), env, a && b)
  {
  }

  lemma OrYields(l: Expr, r: Expr, env: Env, a: bool, b: bool)
    requires Yields(l, env, a) && (a || Yields(r, env, b))
    ensures Yields(Or(l, r), env, a || b)
  {
  }

  /** Reading an attribute of the principal: guarded by `has`, it cannot fail. */
  lemma PrincipalAttribute(env: Env, a: Attr)
    requires env.principal in env.store
    ensures var v := env.store[env.principal].attrs.Find(a);
            && Yields(Has(Var(Principal), a), env, v.Some?)
            && (v.Some? ==> Eval(Get(Var(Principal), a), env) == Ok(v.value))
  {
    assert Eval(Var(Principal), env) == Ok(EntityValue(env.principal));
  }

  // ---------- chains joined with one operator ----------

  function OrAll(parts: seq<Expr>): Expr
    requires parts != []
  {
    if |parts| == 1 then parts[0] else Or(OrAll(parts[..|parts| - 1]), parts[|parts| - 1])
  }

  function AndAll(parts: seq<Expr>): Expr
    requires parts != []
  {
    if |parts| == 1 then parts[0] else And(AndAll(parts[..|parts| - 1]), parts[|parts| - 1])
  }

  /** `e` evaluates without error to a truth value. */
  predicate IsTruth(e: Expr, env: Env) {
    Yields(e, env, true) || Yields(e, env, false)
  }

  predicate Truths(parts: seq<Expr>, env: Env) {
    forall e | e in parts :: IsTruth(e, env)
  }

  predicate AnyTrue(parts: seq<Expr>, env: Env) {
    exists e | e in parts :: Yields(e, env, true)
  }

  predicate AllTrue(parts: seq<Expr>, env: Env) {
    forall e | e in parts :: Yields(e, env, true)
  }

  lemma {:induction false} OrAllYields(parts: seq<Expr>, env: Env)
    requires parts != [] && Truths(parts, env)
    ensures Yields(OrAll(parts), env, AnyTrue(parts, env))
  {
    var n := |parts| - 1;
    var init, last := parts[..n], parts[n];
    assert parts == init + [last];
    assert IsTruth(last, env);
    assert AnyTrue(parts, env) <==> AnyTrue(init, env) || Yields(last, env, true);
    if n > 0 { OrAllYields(init, env); }
  }

  lemma {:induction false} AndAllYields(parts: seq<Expr>, env: Env)
    requires parts != [] && Truths(parts, env)
    ensures Yields(AndAll(parts), env, AllTrue(parts, env))
  {
    var n := |parts| - 1;
    var init, last := parts[..n], parts[n];
    assert parts == init + [last];
    assert IsTruth(last, env);
    assert AllTrue(parts, env) <==> AllTrue(init, env) && Yields(last, env, true);
    if n > 0 { AndAllYields(init, env); }
  }

  lemma SinglePart(e: Expr, env: Env, b: bool)
    requires Yields(e, env, b)
    ensures Truths([e], env) && AnyTrue([e], env) == b && AllTrue([e], env) == b
  {
    assert e in [e];
  }

  lemma JoinParts(l: seq<Expr>, r: seq<Expr>, env: Env)
    requires Truths(l, env) && Truths(r, env)
    ensures Truths(l + r, env)
    ensures AnyTrue(l + r, env) == (AnyTrue(l, env) || AnyTrue(r, env))
    ensures AllTrue(l + r, env) == (AllTrue(l, env) && AllTrue(r, env))
  {
    assert forall e :: e in l + r <==> e in l || e in r;
  }

  // ---------- the authorizer ----------

  datatype PolicyEffect = Permit | Forbid

  datatype Policy = Policy(effect: PolicyEffect, when: Expr)

  type PolicySet = map<Uuid, Policy>

  function Satisfied(policies: PolicySet, effect: PolicyEffect, env: Env): (ids: set<Uuid>)
    ensures ids <= policies.Keys
  {
    set id | id in policies && policies[id].effect == effect && Yields(policies[id].when, env, true)
  }

  function Failing(policies: PolicySet, env: Env): (ids: set<Uuid>)
    ensures ids <= policies.Keys
  {
    set id | id in policies && forall b: bool :: !Yields(policies[id].when, env, b)
  }

  /** The decision, the policies that determined it and the policies that failed to evaluate. */
  datatype Response = Response(allow: bool, reason: set<Uuid>, errors: set<Uuid>)

  function IsAuthorized(policies: PolicySet, env: Env): Response {
    var permits := Satisfied(policies, Permit, env);
    var forbids := Satisfied(policies, Forbid, env);
    var allow := permits != {} && forbids == {};
    Response(allow, if allow then permits else forbids, Failing(policies, env))
  }
}
