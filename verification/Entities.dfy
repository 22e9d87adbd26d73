/** A policy snapshot and the Cedar entity store built from it. */
module Entities {
  import opened Wrappers
  import opened Cedar
  import PolicySpec
  import Text

  type u8 = PolicySpec.u8

  datatype PodEntity = PodEntity(id: Uuid, parent: Option<Uuid>)

  datatype DeviceAttrs = DeviceAttrs(
    status: string, class_: Option<Uuid>,
    firewallEnabled: Option<bool>, diskEncrypted: Option<bool>, screenLockEnabled: Option<bool>,
    osVersion: Option<string>, lastUpdateUnix: Option<int>, attestation: string, riskScore: u8)

  datatype DeviceEntity = DeviceEntity(id: Uuid, pods: seq<Uuid>, attrs: DeviceAttrs)

  datatype PolicyEntry = PolicyEntry(id: Uuid, name: string, spec: PolicySpec.PolicySpec)

  datatype SnapshotData = SnapshotData(
    tenantId: Uuid, version: nat, generatedAt: int, pods: seq<PodEntity>, deviceClasses: seq<Uuid>,
    devices: seq<DeviceEntity>, policies: seq<PolicyEntry>)

  datatype CompileError =
    | Spec(error: PolicySpec.SpecError)
    | DuplicatePolicy(id: Uuid)
    | ConflictingEntities
    | CyclicEntities
    | WrongTenant
    | NotLoaded

  /** "major.minor…", with anything that is not a 64-bit integer read as 0. */
  function ParseOsVersion(s: string): (int, int) {
    var major := Text.ParseInt(Text.Before(s, '.'), -0x8000_0000_0000_0000, 0x7fff_ffff_ffff_ffff);
    var rest := Text.After(s, '.');
    var minor := if rest.None? then None
                 else Text.ParseInt(Text.Before(rest.value, '.'), -0x8000_0000_0000_0000, 0x7fff_ffff_ffff_ffff);
    (if major.Some? then major.value else 0, if minor.Some? then minor.value else 0)
  }

  function HoursSince(now: int, ts: int): nat {
    if now <= ts then 0 else (now - ts) / 3600
  }

  function IdsOf(pods: seq<Uuid>): set<Uid> {
    set p | p in pods :: Pod(p)
  }

  function PodData(pod: PodEntity): EntityData {
    EntityData(NoAttributes, if pod.parent.Some? then {Pod(pod.parent.value)} else {})
  }

  function ReportedAttributes(d: DeviceAttrs, now: int): Attributes {
    DeviceRecord(d.status, d.attestation, d.riskScore, d.firewallEnabled, d.diskEncrypted, d.screenLockEnabled,
                 if d.osVersion.Some? then Some(ParseOsVersion(d.osVersion.value)) else None,
                 if d.lastUpdateUnix.Some? then Some(HoursSince(now, d.lastUpdateUnix.value)) else None)
  }

  function DeviceData(d: DeviceEntity, now: int): EntityData {
    EntityData(ReportedAttributes(d.attrs, now),
               IdsOf(d.pods) + (if d.attrs.class_.Some? then {DeviceClass(d.attrs.class_.value)} else {}))
  }

  function PodList(pods: seq<PodEntity>): (r: seq<(Uid, EntityData)>)
    ensures |r| == |pods|
    ensures forall i :: 0 <= i < |r| ==> r[i] == (Pod(pods[i].id), PodData(pods[i]))
  {
    seq(|pods|, i requires 0 <= i < |pods| => (Pod(pods[i].id), PodData(pods[i])))
  }

  function ClassList(classes: seq<Uuid>): (r: seq<(Uid, EntityData)>)
    ensures |r| == |classes|
    ensures forall i :: 0 <= i < |r| ==> r[i] == (DeviceClass(classes[i]), EntityData(NoAttributes, {}))
  {
    seq(|classes|, i requires 0 <= i < |classes| => (DeviceClass(classes[i]), EntityData(NoAttributes, {})))
  }

  function DeviceList(devices: seq<DeviceEntity>, now: int): (r: seq<(Uid, EntityData)>)
    ensures |r| == |devices|
    ensures forall i :: 0 <= i < |r| ==> r[i] == (Device(devices[i].id), DeviceData(devices[i], now))
  {
    seq(|devices|, i requires 0 <= i < |devices| => (Device(devices[i].id), DeviceData(devices[i], now)))
  }

  /** Everything handed to the store, in order: pods, classes, the network, devices. */
  function EntityList(data: SnapshotData, now: int): seq<(Uid, EntityData)> {
    PodList(data.pods) + ClassList(data.deviceClasses) + [(External, EntityData(NoAttributes, {}))]
    + DeviceList(data.devices, now)
  }

  /** Equal repetitions of an entity are accepted, conflicting ones are not. */
  function Collect(list: seq<(Uid, EntityData)>): Result<Store, CompileError> {
    if list == [] then Ok(map[]) else
    var (u, e) := list[|list| - 1];
    var rest := Collect(list[..|list| - 1]);
    if rest.Err? then rest
    else if u in rest.value && rest.value[u] != e then Err(ConflictingEntities)
    else Ok(rest.value[u := e])
  }

  predicate HasCycle(store: Store) {
    exists u | u in store :: exists p | p in store[u].parents :: Descends(store, p, u)
  }

  function FromEntities(list: seq<(Uid, EntityData)>): Result<Store, CompileError> {
    var store := Collect(list);
    if store.Ok? && HasCycle(store.value) then Err(CyclicEntities) else store
  }

  function EntitiesOf(data: SnapshotData, now: int): Result<Store, CompileError> {
    FromEntities(EntityList(data, now))
  }

  /** Push every entity in order, then build the store. */
  method BuildEntities(data: SnapshotData, now: int) returns (r: Result<Store, CompileError>)
    ensures r == EntitiesOf(data, now)
  {
    var pods, classes, devices := PodList(data.pods), ClassList(data.deviceClasses), DeviceList(data.devices, now);
    var entities: seq<(Uid, EntityData)> := [];
    for i := 0 to |data.pods|
      invariant entities == pods[..i]
    {
      entities := entities + [(Pod(data.pods[i].id), PodData(data.pods[i]))];
    }
    for i := 0 to |data.deviceClasses|
      invariant entities == pods + classes[..i]
    {
      entities := entities + [(DeviceClass(data.deviceClasses[i]), EntityData(NoAttributes, {}))];
    }
    entities := entities + [(External, EntityData(NoAttributes, {}))];
    ghost var before := entities;
    for i := 0 to |data.devices|
      invariant entities == before + devices[..i]
    {
      entities := entities + [(Device(data.devices[i].id), DeviceData(data.devices[i], now))];
    }
    assert entities == before + devices == EntityList(data, now);
    r := FromEntities(entities);
  }

  // ---------- what the store holds ----------

  lemma {:induction false} CollectHolds(list: seq<(Uid, EntityData)>, store: Store)
    requires Collect(list) == Ok(store)
    ensures forall x :: x in list ==> x.0 in store && store[x.0] == x.1
    ensures forall u :: u in store ==> (u, store[u]) in list
  {
    if list != [] {
      var n := |list| - 1;
      var (u, e) := list[n];
      assert list == list[..n] + [(u, e)];
      CollectHolds(list[..n], Collect(list[..n]).value);
    }
  }

  function FindPod(pods: seq<PodEntity>, id: Uuid): (r: Option<PodEntity>)
    ensures r.Some? ==> r.value in pods && r.value.id == id
    ensures r.None? ==> forall p :: p in pods ==> p.id != id
  {
    if pods == [] then None
    else if pods[0].id == id then Some(pods[0])
    else FindPod(pods[1..], id)
  }

  function FindDevice(devices: seq<DeviceEntity>, id: Uuid): (r: Option<DeviceEntity>)
    ensures r.Some? ==> r.value in devices && r.value.id == id
    ensures r.None? ==> forall d :: d in devices ==> d.id != id
  {
    if devices == [] then None
    else if devices[0].id == id then Some(devices[0])
    else FindDevice(devices[1..], id)
  }

  /** The store answers for exactly the pods, devices and network of the snapshot. */
  ghost predicate Mirrors(store: Store, data: SnapshotData, now: int) {
    && (forall p :: match FindPod(data.pods, p)
                    case Some(pod) => Pod(p) in store && store[Pod(p)] == PodData(pod)
                    case None => Pod(p) !in store)
    && (forall d :: match FindDevice(data.devices, d)
                    case Some(dev) => Device(d) in store && store[Device(d)] == DeviceData(dev, now)
                    case None => Device(d) !in store)
    && External in store && store[External].parents == {}
    && (forall c :: DeviceClass(c) in store ==> store[DeviceClass(c)].parents == {})
  }

  /** Where an entry of the list came from. */
  ghost predicate FromSnapshot(data: SnapshotData, now: int, x: (Uid, EntityData)) {
    match x.0
    case Pod(p) => exists pod :: pod in data.pods && pod.id == p && x.1 == PodData(pod)
    case Device(d) => exists dev :: dev in data.devices && dev.id == d && x.1 == DeviceData(dev, now)
    case DeviceClass(c) => c in data.deviceClasses && x.1 == EntityData(NoAttributes, {})
    case External => x.1 == EntityData(NoAttributes, {})
  }

  lemma ListOrigin(data: SnapshotData, now: int, x: (Uid, EntityData))
    requires x in EntityList(data, now)
    ensures FromSnapshot(data, now, x)
  {
    if x in PodList(data.pods) {
      var i :| 0 <= i < |data.pods| && PodList(data.pods)[i] == x;
      assert data.pods[i] in data.pods;
    } else if x in DeviceList(data.devices, now) {
      var i :| 0 <= i < |data.devices| && DeviceList(data.devices, now)[i] == x;
      assert data.devices[i] in data.devices;
    } else if x in ClassList(data.deviceClasses) {
      var i :| 0 <= i < |data.deviceClasses| && ClassList(data.deviceClasses)[i] == x;
      assert data.deviceClasses[i] in data.deviceClasses;
    }
  }

  lemma ClassListed(data: SnapshotData, now: int, c: Uuid)
    requires c in data.deviceClasses
    ensures (DeviceClass(c), EntityData(NoAttributes, {})) in EntityList(data, now)
  {
    var i :| 0 <= i < |data.deviceClasses| && data.deviceClasses[i] == c;
    assert ClassList(data.deviceClasses)[i] in ClassList(data.deviceClasses);
  }

  /** And for exactly the snapshot's device classes. */
  lemma StoreMirrorsClasses(data: SnapshotData, now: int, store: Store, c: Uuid)
    requires EntitiesOf(data, now) == Ok(store)
    ensures DeviceClass(c) in store <==> c in data.deviceClasses
    ensures DeviceClass(c) in store ==> store[DeviceClass(c)] == EntityData(NoAttributes, {})
  {
    var list := EntityList(data, now);
    CollectHolds(list, store);
    if DeviceClass(c) in store { ListOrigin(data, now, (DeviceClass(c), store[DeviceClass(c)])); }
    if c in data.deviceClasses { ClassListed(data, now, c); }
  }

  lemma PodListed(data: SnapshotData, now: int, pod: PodEntity)
    requires pod in data.pods
    ensures (Pod(pod.id), PodData(pod)) in EntityList(data, now)
  {
    var i :| 0 <= i < |data.pods| && data.pods[i] == pod;
    assert PodList(data.pods)[i] in PodList(data.pods);
  }

  lemma DeviceListed(data: SnapshotData, now: int, d: DeviceEntity)
    requires d in data.devices
    ensures (Device(d.id), DeviceData(d, now)) in EntityList(data, now)
  {
    var i :| 0 <= i < |data.devices| && data.devices[i] == d;
    assert DeviceList(data.devices, now)[i] in DeviceList(data.devices, now);
  }

  lemma StoreMirrors(data: SnapshotData, now: int, store: Store)
    requires EntitiesOf(data, now) == Ok(store)
    ensures Mirrors(store, data, now)
  {
    var list := EntityList(data, now);
    CollectHolds(list, store);
    forall u | u in store ensures FromSnapshot(data, now, (u, store[u])) {
      ListOrigin(data, now, (u, store[u]));
    }
    forall pod | pod in data.pods ensures (Pod(pod.id), PodData(pod)) in list {
      PodListed(data, now, pod);
    }
    forall d | d in data.devices ensures (Device(d.id), DeviceData(d, now)) in list {
      DeviceListed(data, now, d);
    }
    assert (External, EntityData(NoAttributes, {})) in list;
    MirrorsFromParts(data, now, store, list);
  }

  lemma MirrorsFromParts(data: SnapshotData, now: int, store: Store, list: seq<(Uid, EntityData)>)
    requires forall x :: x in list ==> x.0 in store && store[x.0] == x.1
    requires forall u :: u in store ==> FromSnapshot(data, now, (u, store[u]))
    requires forall pod :: pod in data.pods ==> (Pod(pod.id), PodData(pod)) in list
    requires forall d :: d in data.devices ==> (Device(d.id), DeviceData(d, now)) in list
    requires (External, EntityData(NoAttributes, {})) in list
    ensures Mirrors(store, data, now)
  {
  }

  /** The pod `n` levels above `p`, following each pod's own parent. */
  function Ancestor(pods: seq<PodEntity>, p: Uuid, n: nat): Option<Uuid>
    decreases n
  {
    if n == 0 then Some(p)
    else
      var pod := FindPod(pods, p);
      if pod.None? || pod.value.parent.None? then None
      else Ancestor(pods, pod.value.parent.value, n - 1)
  }

  ghost predicate UnderPod(pods: seq<PodEntity>, p: Uuid, target: Uuid) {
    exists n: nat :: Ancestor(pods, p, n) == Some(target)
  }

  /** A device belongs to the pods it lists and to every pod above those. */
  ghost predicate InPod(data: SnapshotData, d: DeviceEntity, target: Uuid) {
    exists p :: p in d.pods && UnderPod(data.pods, p, target)
  }

  // ---------- `in` on a built store is membership through the parent chain ----------

  lemma ReachesVia(store: Store, a: Uid, q: Uid, b: Uid)
    requires a in store && q in store[a].parents && Reaches(store, q, b)
    ensures Reaches(store, a, b)
  {
    var path :| IsPath(store, path) && path[0] == q && path[|path| - 1] == b;
    var longer := [a] + path;
    assert IsPath(store, longer) && longer[0] == a && longer[|longer| - 1] == b;
  }

  lemma TailIsPath(store: Store, path: seq<Uid>)
    requires IsPath(store, path) && |path| > 1
    ensures IsPath(store, path[1..])
    ensures path[0] in store && path[1] in store[path[0]].parents
  {
    assert path[0 + 1] in store[path[0]].parents;
    forall i | 0 <= i < |path| - 2
      ensures path[1..][i] in store && path[1..][i + 1] in store[path[1..][i]].parents
    {
      assert path[i + 1] in store && path[i + 1 + 1] in store[path[i + 1]].parents;
    }
  }

  lemma ReachStep(store: Store, a: Uid, b: Uid)
    ensures Reaches(store, a, b) <==>
            a == b || (a in store && exists q :: q in store[a].parents && Reaches(store, q, b))
  {
    if a == b {
      assert IsPath(store, [a]) && [a][0] == a;
    }
    if Reaches(store, a, b) && a != b {
      var path :| IsPath(store, path) && path[0] == a && path[|path| - 1] == b;
      TailIsPath(store, path);
      assert path[1..][|path| - 2] == b;
      assert Reaches(store, path[1], b);
    }
    if a in store {
      if q :| q in store[a].parents && Reaches(store, q, b) {
        ReachesVia(store, a, q, b);
      }
    }
  }

  lemma {:induction false} PathFromPod(data: SnapshotData, now: int, store: Store, path: seq<Uid>, p: Uuid)
    requires Mirrors(store, data, now)
    requires IsPath(store, path) && path[0] == Pod(p)
    ensures path[|path| - 1].Pod?
    ensures Ancestor(data.pods, p, |path| - 1) == Some(path[|path| - 1].id)
    decreases |path|
  {
    if |path| > 1 {
      TailIsPath(store, path);
      var pod := FindPod(data.pods, p).value;
      PathFromPod(data, now, store, path[1..], pod.parent.value);
    }
  }

  lemma {:induction false} AncestorReached(data: SnapshotData, now: int, store: Store, p: Uuid, n: nat, target: Uuid)
    requires Mirrors(store, data, now)
    requires Ancestor(data.pods, p, n) == Some(target)
    ensures Reaches(store, Pod(p), Pod(target))
    decreases n
  {
    if n == 0 {
      ReachStep(store, Pod(p), Pod(target));
    } else {
      var above := FindPod(data.pods, p).value.parent.value;
      AncestorReached(data, now, store, above, n - 1, target);
      ReachesVia(store, Pod(p), Pod(above), Pod(target));
    }
  }

  lemma ReachFromPod(data: SnapshotData, now: int, store: Store, p: Uuid, t: Uid)
    requires Mirrors(store, data, now)
    ensures Reaches(store, Pod(p), t) <==> t.Pod? && UnderPod(data.pods, p, t.id)
  {
    if Reaches(store, Pod(p), t) {
      var path :| IsPath(store, path) && path[0] == Pod(p) && path[|path| - 1] == t;
      PathFromPod(data, now, store, path, p);
    }
    if t.Pod? && UnderPod(data.pods, p, t.id) {
      var n: nat :| Ancestor(data.pods, p, n) == Some(t.id);
      AncestorReached(data, now, store, p, n, t.id);
    }
  }

  /** What a known device is `in`, besides itself: its class and the pods it belongs to. */
  ghost predicate BelongsTo(data: SnapshotData, d: DeviceEntity, t: Uid) {
    || (t.Pod? && InPod(data, d, t.id))
    || (t.DeviceClass? && d.attrs.class_ == Some(t.id))
  }

  lemma ReachFromKnownDevice(data: SnapshotData, now: int, store: Store, d: DeviceEntity, t: Uid)
    requires Mirrors(store, data, now)
    requires FindDevice(data.devices, d.id) == Some(d)
    ensures Reaches(store, Device(d.id), t) <==> t == Device(d.id) || BelongsTo(data, d, t)
  {
    ReachStep(store, Device(d.id), t);
    var parents := store[Device(d.id)].parents;
    if q :| q in parents && Reaches(store, q, t) {
      if q.Pod? { ReachFromPod(data, now, store, q.id, t); } else { ReachStep(store, q, t); }
    }
    if t.Pod? && InPod(data, d, t.id) {
      var p :| p in d.pods && UnderPod(data.pods, p, t.id);
      assert Pod(p) in parents;
      ReachFromPod(data, now, store, p, t);
    }
    if t.DeviceClass? && d.attrs.class_ == Some(t.id) {
      assert t in parents;
      ReachStep(store, t, t);
    }
  }

  lemma ReachFromDevice(data: SnapshotData, now: int, store: Store, id: Uuid, t: Uid)
    requires Mirrors(store, data, now)
    ensures Descends(store, Device(id), t) <==>
            || t == Device(id)
            || (FindDevice(data.devices, id).Some? && BelongsTo(data, FindDevice(data.devices, id).value, t))
  {
    DescendsIsReaches(store, Device(id), t);
    match FindDevice(data.devices, id)
    case Some(d) => ReachFromKnownDevice(data, now, store, d, t);
    case None => ReachStep(store, Device(id), t);
  }

  lemma ReachFromExternal(data: SnapshotData, now: int, store: Store, t: Uid)
    requires Mirrors(store, data, now)
    ensures Descends(store, External, t) <==> t == External
  {
    DescendsIsReaches(store, External, t);
    ReachStep(store, External, t);
  }
}
