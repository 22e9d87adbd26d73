/** Revocation over session objects: what the gateway's lists, its metadata and the two-map session
    table together promise of the session a packet really came through. */
module Revocation {
  import opened Wrappers
  import opened Bytes
  import opened Net
  import opened Gateway
  import S = Session
  import T = SessionTable

  /** The gateway's state by id, the session objects and their table, and each object's certificate. */
  datatype System = System(gateway: State, world: T.World, serials: map<nat, Serial>)

  datatype Event =
    | Offering(offer: Offer, keys: S.SessionKeys, local: u32, remote: u32, now: nat)
    | Closing(id: nat)
    | Listing(verified: Option<Crl>, order: seq<nat>)
    | Routing(id: nat, nets: seq<Option<IpNet>>, remove: bool)
    | Rotating(handle: nat, keys: S.SessionKeys, local: u32, remote: u32, now: nat)
    | Expiring(handle: nat, overlap: nat, now: nat)

  /** The offer passes every check, a free receiver index included. */
  predicate Accepts(s: System, o: Offer, local: u32) {
    o.acceptable && o.serial !in s.gateway.crl.serials && T.Free(s.world, local)
  }

  /** The ids a list makes the gateway close. */
  function Closes(g: State, verified: Option<Crl>): set<nat> {
    if verified == None || verified.value.version < g.crl.version then {} else RevokedIds(g.(crl := verified.value))
  }

  function RemoveAll(w: T.World, ids: seq<nat>): T.World {
    if ids == [] then w else T.Removed(RemoveAll(w, ids[..|ids| - 1]), ids[|ids| - 1])
  }

  /** Sessions are closed in whatever order the metadata map is walked. */
  function Step(s: System, ev: Event): System {
    match ev
    case Offering(o, keys, local, remote, now) =>
      if !Accepts(s, o, local) then s
      else System(Accepting(s.gateway, o), T.Step(s.world, T.Insert(o.id, S.Responder, keys, local, remote, now)),
                  s.serials[s.world.next := o.serial])
    case Closing(id) => s.(gateway := Gateway.Closing(s.gateway, id), world := T.Removed(s.world, id))
    case Listing(verified, order) =>
      if Members(order) != Closes(s.gateway, verified) then s
      else s.(gateway := ApplyingCrl(s.gateway, verified), world := RemoveAll(s.world, order))
    case Routing(id, nets, remove) =>
      s.(gateway := s.gateway.(routes := ApplyingRoutes(s.gateway.routes, id, nets, remove)))
    case Rotating(h, keys, local, remote, now) => s.(world := T.Step(s.world, T.Rotate(h, keys, local, remote, now)))
    case Expiring(h, overlap, now) => s.(world := T.Step(s.world, T.Expire(h, overlap, now)))
  }

  function Start(crl: Crl): System {
    System(State({}, map[], map[], crl), T.EMPTY, map[])
  }

  function Run(s: System, evs: seq<Event>): System {
    if evs == [] then s else Step(Run(s, evs[..|evs| - 1]), evs[|evs| - 1])
  }

  /** No accepted offer names an id that is live. */
  predicate NewId(s: System, ev: Event) {
    ev.Offering? && Accepts(s, ev.offer, ev.local) ==> ev.offer.id !in s.world.table.byId
  }

  predicate NewIds(s: System, evs: seq<Event>) {
    evs != [] ==> NewIds(s, evs[..|evs| - 1]) && NewId(Run(s, evs[..|evs| - 1]), evs[|evs| - 1])
  }

  // ---------- what is promised ----------

  /** A packet that came in by this index, from this source, is taken as its session's own. */
  predicate Heard(s: System, index: u32, src: Ip) {
    && index in s.world.table.byIndex
    && var h := s.world.table.byIndex[index];
    && h in s.world.sessions && !s.world.sessions[h].closed && h in s.world.ids
    && s.world.ids[h] in s.gateway.meta && OwnsSource(s.gateway.meta[s.world.ids[h]], src)
  }

  /** The certificate of every session that is heard is not revoked. */
  ghost predicate Unrevoked(s: System) {
    forall index, src :: Heard(s, index, src) ==>
                           var h := s.world.table.byIndex[index];
                           h in s.serials && s.serials[h] !in s.gateway.crl.serials
  }

  ghost predicate Inv(s: System) {
    && T.Sound(s.world) && Good(s.gateway) && s.gateway.table == s.world.table.byId.Keys
    && s.serials.Keys == s.world.sessions.Keys
    && forall index :: index in s.world.table.byIndex ==> s.world.table.byIndex[index] in s.world.sessions
  }

  /** Every open session an index resolves to is the one its id names, and has that id's metadata. */
  ghost predicate Clean(s: System) {
    && (forall index :: index in s.world.table.byIndex && s.world.table.byIndex[index] in s.world.sessions
                        && !s.world.sessions[s.world.table.byIndex[index]].closed ==>
                          T.Live(s.world, s.world.table.byIndex[index]))
    && (forall id :: id in s.gateway.meta && id in s.world.table.byId && s.world.table.byId[id] in s.serials ==>
                       s.gateway.meta[id].serial == s.serials[s.world.table.byId[id]])
  }

  lemma CleanUnrevoked(s: System)
    requires Inv(s) && Clean(s)
    ensures Unrevoked(s)
  {
  }

  // ---------- removing sessions ----------

  /** What a removal does to the two maps and the session it closes. */
  lemma RemovedExact(w: T.World, id: nat)
    requires T.Sound(w)
    ensures var w' := T.Removed(w, id);
            && T.Sound(w') && w'.table.byId == w.table.byId - {id} && w'.ids == w.ids && w'.next == w.next
            && w'.sessions.Keys == w.sessions.Keys && w'.table.byIndex.Keys <= w.table.byIndex.Keys
            && (forall i :: i in w'.table.byIndex ==> w'.table.byIndex[i] == w.table.byIndex[i])
            && (forall h :: h in w.sessions ==>
                  w'.sessions[h] == if id in w.table.byId && h == w.table.byId[id] then w.sessions[h].(closed := true)
                                    else w.sessions[h])
            && (forall i :: i in w.table.byIndex && i !in w'.table.byIndex ==>
                  id in w.table.byId && w.table.byIndex[i] == w.table.byId[id])
  {
    T.RemoveSound(w, id);
    if id in w.table.byId {
      var h := w.table.byId[id];
      T.UnbindExact(w.table.byIndex, S.Indexes(w.sessions[h]));
      forall i | i in S.Indexes(w.sessions[h]) ensures i in w.table.byIndex && w.table.byIndex[i] == h {
        assert T.Live(w, h) && T.Lists(w, h, i);
      }
    } else {
      assert w.table.byId - {id} == w.table.byId;
    }
  }

  /** Handles only ever close, indexes are only ever released, and ids go exactly as asked. */
  ghost predicate Shrunk(w: T.World, w': T.World, gone: set<nat>) {
    && T.Sound(w') && w'.table.byId == w.table.byId - gone && w'.ids == w.ids && w'.next == w.next
    && w'.sessions.Keys == w.sessions.Keys && w'.table.byIndex.Keys <= w.table.byIndex.Keys
    && (forall i :: i in w'.table.byIndex ==> w'.table.byIndex[i] == w.table.byIndex[i])
    && (forall h :: h in w.sessions && h in w'.sessions ==>
          (w'.sessions[h].closed <==>
             w.sessions[h].closed || exists id :: id in gone && id in w.table.byId && w.table.byId[id] == h))
    && (forall i :: i in w.table.byIndex && i !in w'.table.byIndex ==>
          exists id :: id in gone && id in w.table.byId && w.table.byId[id] == w.table.byIndex[i])
  }

  lemma ShrunkNone(w: T.World)
    requires T.Sound(w)
    ensures Shrunk(w, w, {})
  {
    assert w.table.byId - {} == w.table.byId;
  }

  lemma ShrunkMore(w: T.World, mid: T.World, gone: set<nat>, last: nat)
    requires T.Sound(w) && Shrunk(w, mid, gone)
    ensures Shrunk(w, T.Removed(mid, last), gone + {last})
  {
    RemovedExact(mid, last);
    assert T.Removed(mid, last).table.byId == w.table.byId - (gone + {last});
  }

  function Members(ids: seq<nat>): set<nat> { set id | id in ids }

  lemma MembersAdd(ids: seq<nat>)
    requires ids != []
    ensures Members(ids) == Members(ids[..|ids| - 1]) + {ids[|ids| - 1]}
  {
    assert ids == ids[..|ids| - 1] + [ids[|ids| - 1]];
  }

  lemma {:induction false} RemoveAllExact(w: T.World, ids: seq<nat>)
    requires T.Sound(w)
    ensures Shrunk(w, RemoveAll(w, ids), Members(ids))
  {
    if ids == [] {
      ShrunkNone(w);
    } else {
      var before, last := ids[..|ids| - 1], ids[|ids| - 1];
      RemoveAllExact(w, before);
      ShrunkMore(w, RemoveAll(w, before), Members(before), last);
      MembersAdd(ids);
    }
  }

  // ---------- each step ----------

  lemma OfferWorld(s: System, ev: Event)
    requires Inv(s) && ev.Offering? && Accepts(s, ev.offer, ev.local)
    ensures var w, w', h := s.world, Step(s, ev).world, s.world.next;
            && T.Sound(w') && w'.table.byIndex == w.table.byIndex[ev.local := h]
            && w'.table.byId == w.table.byId[ev.offer.id := h] && w'.ids == w.ids[h := ev.offer.id]
            && w'.sessions == w.sessions[h := S.NewState(S.Responder, ev.keys, ev.local, ev.remote, ev.now)]
  {
    var n := S.NewState(S.Responder, ev.keys, ev.local, ev.remote, ev.now);
    T.InsertSound(s.world, ev.offer.id, n);
    T.BindOne(s.world.table.byIndex, n, s.world.next);
  }

  lemma OfferInv(s: System, ev: Event)
    requires Inv(s) && ev.Offering? && Accepts(s, ev.offer, ev.local)
    ensures Inv(Step(s, ev))
  {
    OfferWorld(s, ev);
    StepGood(s.gateway, Offered(ev.offer));
  }

  lemma OfferClean(s: System, ev: Event)
    requires Inv(s) && Clean(s) && ev.Offering? && Accepts(s, ev.offer, ev.local) && NewId(s, ev)
    ensures Clean(Step(s, ev))
  {
    OfferWorld(s, ev);
  }

  lemma CloseInv(s: System, id: nat)
    requires Inv(s)
    ensures Inv(Step(s, Closing(id))) && (Clean(s) ==> Clean(Step(s, Closing(id))))
  {
    ShrunkNone(s.world);
    ShrunkMore(s.world, s.world, {}, id);
    assert {} + {id} == {id};
    StepGood(s.gateway, Closed(id));
  }

  lemma ListGone(g: State, verified: Option<Crl>)
    requires Good(g)
    ensures var g' := ApplyingCrl(g, verified);
            && g'.table == g.table - Closes(g, verified) && g'.meta == g.meta - Closes(g, verified)
  {
    if Closes(g, verified) == {} { assert g.meta - {} == g.meta; }
  }

  lemma ListInv(s: System, verified: Option<Crl>, order: seq<nat>)
    requires Inv(s) && Members(order) == Closes(s.gateway, verified)
    ensures Inv(Step(s, Listing(verified, order))) && (Clean(s) ==> Clean(Step(s, Listing(verified, order))))
  {
    RemoveAllExact(s.world, order);
    ListGone(s.gateway, verified);
    StepGood(s.gateway, Revocations(verified));
  }

  lemma RotateInv(s: System, ev: Event)
    requires Inv(s) && ev.Rotating?
    ensures Inv(Step(s, ev)) && (Clean(s) ==> Clean(Step(s, ev)))
  {
    T.StepSound(s.world, T.Rotate(ev.handle, ev.keys, ev.local, ev.remote, ev.now));
  }

  lemma ExpireInv(s: System, ev: Event)
    requires Inv(s) && ev.Expiring?
    ensures Inv(Step(s, ev)) && (Clean(s) ==> Clean(Step(s, ev)))
  {
    T.StepSound(s.world, T.Expire(ev.handle, ev.overlap, ev.now));
  }

  lemma StepInv(s: System, ev: Event)
    requires Inv(s)
    ensures Inv(Step(s, ev)) && (Clean(s) && NewId(s, ev) ==> Clean(Step(s, ev)))
  {
    match ev
    case Offering(o, _, local, _, _) =>
      if Accepts(s, o, local) {
        OfferInv(s, ev);
        if Clean(s) && NewId(s, ev) { OfferClean(s, ev); }
      }
    case Closing(id) => CloseInv(s, id);
    case Listing(verified, order) =>
      if Members(order) == Closes(s.gateway, verified) { ListInv(s, verified, order); }
    case Routing(id, nets, remove) => StepGood(s.gateway, RouteUpdate(id, nets, remove));
    case Rotating(_, _, _, _, _) => RotateInv(s, ev);
    case Expiring(_, _, _) => ExpireInv(s, ev);
  }

  lemma {:induction false} RunInv(s: System, evs: seq<Event>)
    requires Inv(s)
    ensures Inv(Run(s, evs)) && (Clean(s) && NewIds(s, evs) ==> Clean(Run(s, evs)))
  {
    if evs != [] {
      RunInv(s, evs[..|evs| - 1]);
      StepInv(Run(s, evs[..|evs| - 1]), evs[|evs| - 1]);
    }
  }

  /** In every run whose offers never reuse a live id, each session that is heard has a certificate that
      is not revoked. */
  lemma RevokedNeverHeard(crl: Crl, evs: seq<Event>)
    requires NewIds(Start(crl), evs)
    ensures Unrevoked(Run(Start(crl), evs))
  {
    RunInv(Start(crl), evs);
    CleanUnrevoked(Run(Start(crl), evs));
  }

  // ---------- reusing a live id, exactly ----------

  /** An open session that an index still finds and its id no longer names. */
  ghost predicate Orphan(s: System, h: nat, index: u32, id: nat) {
    && index in s.world.table.byIndex && s.world.table.byIndex[index] == h && h in s.world.sessions
    && !s.world.sessions[h].closed && h in s.world.ids && s.world.ids[h] == id && !T.Live(s.world, h)
  }

  lemma ShrunkOrphan(s: System, s': System, gone: set<nat>, h: nat, index: u32, id: nat)
    requires Inv(s) && Inv(s') && Orphan(s, h, index, id) && Shrunk(s.world, s'.world, gone)
    ensures Orphan(s', h, index, id)
  {
  }

  lemma ReuseOrphans(s: System, ev: Event)
    requires Inv(s) && ev.Offering? && Accepts(s, ev.offer, ev.local) && ev.offer.id in s.world.table.byId
    ensures var h := s.world.table.byId[ev.offer.id];
            && h in s.world.sessions && h in s.serials && Step(s, ev).serials[h] == s.serials[h]
            && Orphan(Step(s, ev), h, s.world.sessions[h].current.local, ev.offer.id)
            && ev.offer.id in Step(s, ev).world.table.byId
            && Step(s, ev).world.table.byIndex[ev.local] == Step(s, ev).world.table.byId[ev.offer.id]
            && T.Lists(Step(s, ev).world, Step(s, ev).world.table.byId[ev.offer.id], ev.local)
  {
    OfferWorld(s, ev);
    var h := s.world.table.byId[ev.offer.id];
    var index := s.world.sessions[h].current.local;
    T.IndexesOf(s.world.sessions[h], index);
    assert T.Live(s.world, h) && T.Lists(s.world, h, index);
    T.IndexesOf(Step(s, ev).world.sessions[s.world.next], ev.local);
  }

  lemma {:induction false} Enumerates(ids: set<nat>) returns (order: seq<nat>)
    ensures Members(order) == ids
  {
    if ids == {} {
      order := [];
    } else {
      var id :| id in ids;
      var rest := Enumerates(ids - {id});
      order := rest + [id];
      MembersAdd(order);
      assert order[..|order| - 1] == rest;
    }
  }

  /** Closing the id lets go of the new session's index and leaves the orphan alone. */
  lemma CloseOrphan(s: System, h: nat, index: u32, id: nat, local: u32)
    requires Inv(s) && Orphan(s, h, index, id) && id in s.world.table.byId
    requires T.Lists(s.world, s.world.table.byId[id], local)
    ensures var s' := Step(s, Closing(id));
            && Inv(s') && Orphan(s', h, index, id) && s'.serials == s.serials
            && id !in s'.world.table.byId && local !in s'.world.table.byIndex
  {
    ShrunkNone(s.world);
    ShrunkMore(s.world, s.world, {}, id);
    assert {} + {id} == {id};
    StepInv(s, Closing(id));
    ShrunkOrphan(s, Step(s, Closing(id)), {id}, h, index, id);
    T.UnbindExact(s.world.table.byIndex, S.Indexes(s.world.sessions[s.world.table.byId[id]]));
  }

  lemma ListsOnly(g: State, serial: Serial)
    ensures ApplyingCrl(g, Some(Crl(g.crl.version, {serial}))).crl.serials == {serial}
  {
  }

  /** A list that revokes the orphan's certificate leaves it open all the same. */
  lemma ListOrphan(s: System, h: nat, index: u32, id: nat) returns (ev: Event)
    requires Inv(s) && Orphan(s, h, index, id) && h in s.serials && id !in s.world.table.byId
    ensures ev.Listing?
    ensures var s' := Step(s, ev);
            && Inv(s') && Orphan(s', h, index, id)
            && s'.gateway.crl.serials == {s.serials[h]} && s'.serials == s.serials
            && s'.world.table.byIndex.Keys <= s.world.table.byIndex.Keys && id !in s'.world.table.byId
  {
    var list := Some(Crl(s.gateway.crl.version, {s.serials[h]}));
    var order := Enumerates(Closes(s.gateway, list));
    ev := Listing(list, order);
    RemoveAllExact(s.world, order);
    StepInv(s, ev);
    ListsOnly(s.gateway, s.serials[h]);
    ShrunkOrphan(s, Step(s, ev), Members(order), h, index, id);
  }

  const HOST := Cidr(Address(V4, 0), 32)

  /** Offering the id to somebody else gives the orphan their metadata. */
  lemma OfferOrphan(s: System, h: nat, index: u32, id: nat, local: u32) returns (ev: Event)
    requires Inv(s) && Orphan(s, h, index, id) && h in s.serials && s.gateway.crl.serials == {s.serials[h]}
    requires id !in s.world.table.byId && T.Free(s.world, local)
    ensures ev.Offering? && NewId(s, ev) && !Unrevoked(Step(s, ev))
  {
    var o := Offer(id, true, 0, Some(0), s.serials[h] + 1, Some(HOST), None, []);
    ev := Offering(o, S.SessionKeys(S.Established(0), 0), local, 1, 0);
    OfferWorld(s, ev);
    var s' := Step(s, ev);
    assert s'.gateway.meta[id] == MetaOf(o) && OwnsSource(MetaOf(o), HOST.addr);
    assert Heard(s', index, HOST.addr);
    assert s'.world.table.byIndex[index] == h && s'.serials[h] in s'.gateway.crl.serials;
  }

  /** From here on, as long as no further offer reuses a live id, revocation reaches every session heard. */
  ghost predicate SafeFrom(s: System) {
    forall more :: NewIds(s, more) ==> Unrevoked(Run(s, more))
  }

  lemma ThreeSteps(s: System, a: Event, b: Event, c: Event)
    ensures Run(s, [a, b, c]) == Step(Step(Step(s, a), b), c)
    ensures NewIds(s, [a, b, c]) <==> NewId(s, a) && NewId(Step(s, a), b) && NewId(Step(Step(s, a), b), c)
  {
    var none: seq<Event> := [];
    assert [a][..0] == none && [a, b][..1] == [a] && [a, b, c][..2] == [a, b];
    assert Run(s, [a]) == Step(Run(s, none), a);
    assert NewIds(s, [a]) <==> NewId(s, a);
    assert Run(s, [a, b]) == Step(Run(s, [a]), b);
    assert NewIds(s, [a, b]) <==> NewIds(s, [a]) && NewId(Run(s, [a]), b);
  }

  lemma OrphanHeard(s: System, h: nat, index: u32, id: nat, local: u32) returns (list: Event, offer: Event)
    requires Inv(s) && Orphan(s, h, index, id) && h in s.serials && id !in s.world.table.byId && T.Free(s.world, local)
    ensures list.Listing? && NewId(Step(s, list), offer) && !Unrevoked(Step(Step(s, list), offer))
  {
    list := ListOrphan(s, h, index, id);
    offer := OfferOrphan(Step(s, list), h, index, id, local);
  }

  lemma OrphanUnsafe(s: System, h: nat, index: u32, id: nat, local: u32)
    requires Inv(s) && Orphan(s, h, index, id) && h in s.serials && id in s.world.table.byId && local != 0
    requires T.Lists(s.world, s.world.table.byId[id], local)
    ensures !SafeFrom(s)
  {
    CloseOrphan(s, h, index, id, local);
    var list, offer := OrphanHeard(Step(s, Closing(id)), h, index, id, local);
    ThreeSteps(s, Closing(id), list, offer);
    assert NewIds(s, [Closing(id), list, offer]) && !Unrevoked(Run(s, [Closing(id), list, offer]));
  }

  lemma ReuseUnsafe(s: System, ev: Event)
    requires Inv(s) && ev.Offering? && Accepts(s, ev.offer, ev.local) && ev.offer.id in s.world.table.byId
    ensures !SafeFrom(Step(s, ev))
  {
    var h := s.world.table.byId[ev.offer.id];
    ReuseOrphans(s, ev);
    OfferInv(s, ev);
    OrphanUnsafe(Step(s, ev), h, s.world.sessions[h].current.local, ev.offer.id, ev.local);
  }

  lemma NewSafe(s: System, more: seq<Event>)
    requires Inv(s) && Clean(s) && NewIds(s, more)
    ensures Unrevoked(Run(s, more))
  {
    RunInv(s, more);
    CleanUnrevoked(Run(s, more));
  }

  /** After a run whose offers used new ids, accepting one more offer keeps revocation effective for every
      session heard, in every such continuation, exactly when its id is not live. */
  lemma RevocationExact(crl: Crl, evs: seq<Event>, ev: Event)
    requires NewIds(Start(crl), evs) && ev.Offering? && Accepts(Run(Start(crl), evs), ev.offer, ev.local)
    ensures var s := Run(Start(crl), evs); SafeFrom(Step(s, ev)) <==> ev.offer.id !in s.world.table.byId
  {
    var s := Run(Start(crl), evs);
    RunInv(Start(crl), evs);
    if ev.offer.id in s.world.table.byId {
      ReuseUnsafe(s, ev);
    } else {
      OfferInv(s, ev);
      OfferClean(s, ev);
      forall more | NewIds(Step(s, ev), more) ensures Unrevoked(Run(Step(s, ev), more)) {
        NewSafe(Step(s, ev), more);
      }
    }
  }
}
