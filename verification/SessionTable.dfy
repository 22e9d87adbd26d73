/** Sessions by receiver index and by id: two maps that have to agree as sessions are inserted,
    rotated, expired and removed. */
module SessionTable {
  import opened Wrappers
  import opened Bytes
  import opened Datagram
  import S = Session

  /** The two maps, over whatever stands for a session. */
  datatype Table<H> = Table(byIndex: map<u32, H>, byId: map<nat, H>)

  function Bind<H>(m: map<u32, H>, idxs: seq<u32>, h: H): map<u32, H> {
    if idxs == [] then m else Bind(m, idxs[..|idxs| - 1], h)[idxs[|idxs| - 1] := h]
  }

  function Unbind<H>(m: map<u32, H>, idxs: seq<u32>): map<u32, H> {
    if idxs == [] then m else Unbind(m, idxs[..|idxs| - 1]) - {idxs[|idxs| - 1]}
  }

  lemma {:induction false} BindExact<H>(m: map<u32, H>, idxs: seq<u32>, h: H)
    ensures Bind(m, idxs, h).Keys == m.Keys + set i | i in idxs
    ensures forall i :: i in Bind(m, idxs, h) ==> Bind(m, idxs, h)[i] == (if i in idxs then h else m[i])
  {
    if idxs != [] {
      BindExact(m, idxs[..|idxs| - 1], h);
      assert idxs == idxs[..|idxs| - 1] + [idxs[|idxs| - 1]];
    }
  }

  lemma {:induction false} UnbindExact<H>(m: map<u32, H>, idxs: seq<u32>)
    ensures Unbind(m, idxs).Keys == m.Keys - set i | i in idxs
    ensures forall i :: i in Unbind(m, idxs) ==> Unbind(m, idxs)[i] == m[i]
  {
    if idxs != [] {
      UnbindExact(m, idxs[..|idxs| - 1]);
      assert idxs == idxs[..|idxs| - 1] + [idxs[|idxs| - 1]];
    }
  }

  // ---------- the table object ----------

  class SessionTable {
    var byIndex: map<u32, S.Session>
    var byId: map<nat, S.Session>

    constructor ()
      ensures View() == Table(map[], map[])
    {
      byIndex := map[];
      byId := map[];
    }

    function View(): Table<S.Session>
      reads this
    {
      Table(byIndex, byId)
    }

    /** An id already present is taken over; the indexes of the session it named stay bound. */
    method Insert(s: S.Session)
      modifies this
      ensures View() == Table(Bind(old(byIndex), S.Indexes(s.View()), s), old(byId)[s.id := s])
    {
      var idxs := S.Indexes(s.View());
      var i := 0;
      while i < |idxs|
        invariant 0 <= i <= |idxs|
        invariant byIndex == Bind(old(byIndex), idxs[..i], s) && byId == old(byId)
      {
        assert idxs[..i + 1][..i] == idxs[..i];
        byIndex := byIndex[idxs[i] := s];
        i := i + 1;
      }
      assert idxs[..i] == idxs;
      byId := byId[s.id := s];
    }

    method RebindIndex(s: S.Session, index: u32)
      modifies this
      ensures View() == Table(old(byIndex)[index := s], old(byId))
    {
      byIndex := byIndex[index := s];
    }

    method ReleaseIndex(index: u32)
      modifies this
      ensures View() == Table(old(byIndex) - {index}, old(byId))
    {
      byIndex := byIndex - {index};
    }

    method Remove(id: nat) returns (r: Option<S.Session>)
      modifies this, set k | k in byId.Keys :: byId[k]
      ensures id !in old(byId) ==> r == None && View() == old(View()) && forall k :: k in byId ==> unchanged(byId[k])
      ensures id in old(byId) ==>
                var s := old(byId)[id];
                && r == Some(s) && s.View() == old(s.View()).(closed := true)
                && View() == Table(Unbind(old(byIndex), S.Indexes(old(s.View()))), old(byId) - {id})
                && forall k :: k in old(byId) && old(byId)[k] != s ==> unchanged(old(byId)[k])
    {
      if id !in byId { return None; }
      var s := byId[id];
      byId := byId - {id};
      var idxs := S.Indexes(s.View());
      var i := 0;
      while i < |idxs|
        invariant 0 <= i <= |idxs|
        invariant byIndex == Unbind(old(byIndex), idxs[..i]) && byId == old(byId) - {id}
        invariant forall k :: k in old(byId) ==> unchanged(old(byId)[k])
      {
        assert idxs[..i + 1][..i] == idxs[..i];
        byIndex := byIndex - {idxs[i]};
        i := i + 1;
      }
      assert idxs[..i] == idxs;
      s.Close();
      r := Some(s);
    }
  }

  // ---------- runs ----------

  /** Every session ever made, by handle, and the table over handles. */
  datatype World = World(table: Table<nat>, sessions: map<nat, S.State>, ids: map<nat, nat>, next: nat)

  datatype Event =
    | Insert(id: nat, role: S.Role, keys: S.SessionKeys, local: u32, remote: u32, now: nat)
    | Rotate(handle: nat, keys: S.SessionKeys, local: u32, remote: u32, now: nat)
    | Expire(handle: nat, overlap: nat, now: nat)
    | Remove(id: nat)

  predicate Live(w: World, h: nat) {
    h in w.ids && w.ids[h] in w.table.byId && w.table.byId[w.ids[h]] == h
  }

  /** A new index is nonzero and resolves to nothing. */
  predicate Free(w: World, index: u32) { index != 0 && index !in w.table.byIndex }

  predicate Enabled(w: World, ev: Event) {
    match ev
    case Insert(_, _, _, local, _, _) => Free(w, local)
    case Rotate(h, _, local, _, _) =>
      // rekey frames come from sessions an index resolved to, and a closed one cannot answer
      Free(w, local) && h in w.table.byIndex.Values && h in w.sessions && !w.sessions[h].closed
    case Expire(h, _, _) => Live(w, h) && h in w.sessions
    case Remove(_) => true
  }

  function Inserted(w: World, id: nat, s: S.State): World {
    var h := w.next;
    World(Table(Bind(w.table.byIndex, S.Indexes(s), h), w.table.byId[id := h]),
          w.sessions[h := s], w.ids[h := id], h + 1)
  }

  function Removed(w: World, id: nat): World {
    if id !in w.table.byId || w.table.byId[id] !in w.sessions then w else
    var h := w.table.byId[id];
    var s := w.sessions[h];
    w.(table := Table(Unbind(w.table.byIndex, S.Indexes(s)), w.table.byId - {id}),
       sessions := w.sessions[h := s.(closed := true)])
  }

  function Step(w: World, ev: Event): World {
    if !Enabled(w, ev) then w else
    match ev
    case Insert(id, role, keys, local, remote, now) => Inserted(w, id, S.NewState(role, keys, local, remote, now))
    case Rotate(h, keys, local, remote, now) =>
      w.(table := w.table.(byIndex := w.table.byIndex[local := h]),
         sessions := w.sessions[h := S.Rotated(w.sessions[h], keys, local, remote, now)])
    case Expire(h, overlap, now) =>
      var (s, released) := S.Expired(w.sessions[h], overlap, now);
      w.(table := if released.Some? then w.table.(byIndex := w.table.byIndex - {released.value}) else w.table,
         sessions := w.sessions[h := s])
    case Remove(id) => Removed(w, id)
  }

  const EMPTY := World(Table(map[], map[]), map[], map[], 0)

  function Run(evs: seq<Event>): World {
    if evs == [] then EMPTY else Step(Run(evs[..|evs| - 1]), evs[|evs| - 1])
  }

  predicate Lists(w: World, h: nat, index: u32) {
    h in w.sessions && index in S.Indexes(w.sessions[h])
  }

  /** Every index a live session lists resolves to that session. */
  ghost predicate Resolves(w: World) {
    forall h, index :: Live(w, h) && Lists(w, h, index) ==> index in w.table.byIndex && w.table.byIndex[index] == h
  }

  /** Every index that resolves, resolves to a live session that lists it. */
  ghost predicate Tight(w: World) {
    forall index :: index in w.table.byIndex ==>
                      Live(w, w.table.byIndex[index]) && Lists(w, w.table.byIndex[index], index)
  }

  ghost predicate Sound(w: World) {
    && w.sessions.Keys == w.ids.Keys && (forall h :: h in w.sessions ==> h < w.next)
    && (forall id :: id in w.table.byId ==> w.table.byId[id] in w.ids && w.ids[w.table.byId[id]] == id)
    && (forall h :: h in w.sessions && Live(w, h) ==> S.DistinctIndexes(w.sessions[h]) && !w.sessions[h].closed)
    && Resolves(w)
  }

  lemma IndexesOf(s: S.State, index: u32)
    ensures index in S.Indexes(s) <==>
            index == s.current.local || (s.previous.Some? && index == s.previous.value.epoch.local)
  {
    if s.previous.Some? { assert S.Indexes(s)[1] == s.previous.value.epoch.local; }
    assert S.Indexes(s)[0] == s.current.local;
  }

  // ---------- each step ----------

  lemma BindOne(m: map<u32, nat>, s: S.State, h: nat)
    requires s.previous == None
    ensures Bind(m, S.Indexes(s), h) == m[s.current.local := h]
  {
    assert S.Indexes(s) == [s.current.local];
    BindExact(m, S.Indexes(s), h);
  }

  lemma InsertSound(w: World, id: nat, s: S.State)
    requires Sound(w) && Free(w, s.current.local) && s.previous == None && !s.closed
    ensures Sound(Inserted(w, id, s))
  {
    var w' := Inserted(w, id, s);
    BindOne(w.table.byIndex, s, w.next);
    forall g, index | Live(w', g) && Lists(w', g, index)
      ensures index in w'.table.byIndex && w'.table.byIndex[index] == g
    {
      if g == w.next { IndexesOf(s, index); } else { assert Live(w, g) && Lists(w, g, index); }
    }
  }

  lemma RotateSound(w: World, ev: Event)
    requires Sound(w) && ev.Rotate? && Enabled(w, ev)
    ensures Sound(Step(w, ev))
  {
    var w' := Step(w, ev);
    var h := ev.handle;
    assert w'.sessions.Keys == w.sessions.Keys;
    IndexesOf(w.sessions[h], w.sessions[h].current.local);
    assert Live(w, h) ==> Lists(w, h, w.sessions[h].current.local);
    forall g, index | Live(w', g) && Lists(w', g, index)
      ensures index in w'.table.byIndex && w'.table.byIndex[index] == g
    {
      IndexesOf(w.sessions[g], index);
      IndexesOf(w'.sessions[g], index);
      assert (index == ev.local && g == h) || Lists(w, g, index);
    }
  }

  lemma ExpireSound(w: World, ev: Event)
    requires Sound(w) && ev.Expire? && Enabled(w, ev)
    ensures Sound(Step(w, ev))
  {
    var w' := Step(w, ev);
    var h := ev.handle;
    assert w'.sessions.Keys == w.sessions.Keys;
    forall g, index | Live(w', g) && Lists(w', g, index)
      ensures index in w'.table.byIndex && w'.table.byIndex[index] == g
    {
      IndexesOf(w.sessions[g], index);
      IndexesOf(w'.sessions[g], index);
      assert Live(w, g) && Lists(w, g, index);
      var released := S.Expired(w.sessions[h], ev.overlap, ev.now).1;
      if released.Some? {
        IndexesOf(w.sessions[h], released.value);
        assert Lists(w, h, released.value);
      }
    }
  }

  lemma RemoveSound(w: World, id: nat)
    requires Sound(w)
    ensures Sound(Removed(w, id))
  {
    if id in w.table.byId {
      var w' := Removed(w, id);
      var h := w.table.byId[id];
      assert w'.sessions.Keys == w.sessions.Keys;
      UnbindExact(w.table.byIndex, S.Indexes(w.sessions[h]));
      forall g, index | Live(w', g) && Lists(w', g, index)
        ensures index in w'.table.byIndex && w'.table.byIndex[index] == g
      {
        assert Live(w, g) && Lists(w, g, index) && g != h;
        assert Live(w, h) && Lists(w, h, index) == (index in S.Indexes(w.sessions[h]));
      }
    }
  }

  lemma StepSound(w: World, ev: Event)
    requires Sound(w)
    ensures Sound(Step(w, ev))
  {
    if Enabled(w, ev) {
      match ev
      case Insert(id, role, keys, local, remote, now) =>
        InsertSound(w, id, S.NewState(role, keys, local, remote, now));
      case Rotate(_, _, _, _, _) => RotateSound(w, ev);
      case Expire(_, _, _) => ExpireSound(w, ev);
      case Remove(id) => RemoveSound(w, id);
    }
  }

  lemma {:induction false} RunSound(evs: seq<Event>)
    ensures Sound(Run(evs))
  {
    if evs != [] {
      RunSound(evs[..|evs| - 1]);
      StepSound(Run(evs[..|evs| - 1]), evs[|evs| - 1]);
    }
  }

  /** In every run, an index a live session lists resolves to it. */
  lemma ListedResolves(evs: seq<Event>, h: nat, index: u32)
    requires Live(Run(evs), h) && Lists(Run(evs), h, index)
    ensures var t := Run(evs).table; index in t.byIndex && t.byIndex[index] == h
  {
    RunSound(evs);
  }

  // ---------- the converse, exactly ----------

  /** The steps that leave no stale index: a new id, and a rotation whose previous epoch is gone. */
  predicate Orderly(w: World, ev: Event) {
    Enabled(w, ev) ==>
      match ev
      case Insert(id, _, _, _, _, _) => id !in w.table.byId
      case Rotate(h, _, _, _, _) => h in w.sessions && w.sessions[h].previous == None
      case _ => true
  }

  lemma InsertTight(w: World, id: nat, s: S.State)
    requires Sound(w) && Tight(w) && Free(w, s.current.local) && s.previous == None
    ensures Tight(Inserted(w, id, s)) <==> id !in w.table.byId
  {
    var w' := Inserted(w, id, s);
    BindOne(w.table.byIndex, s, w.next);
    if id in w.table.byId {
      var g := w.table.byId[id];
      var index := w.sessions[g].current.local;
      IndexesOf(w.sessions[g], index);
      assert Live(w, g) && Lists(w, g, index);
      assert w'.table.byIndex[index] == g && !Live(w', g);
    } else {
      forall index | index in w'.table.byIndex
        ensures Live(w', w'.table.byIndex[index]) && Lists(w', w'.table.byIndex[index], index)
      {
        IndexesOf(s, index);
        if index != s.current.local {
          assert Live(w, w.table.byIndex[index]) && Lists(w, w.table.byIndex[index], index);
        }
      }
    }
  }

  lemma RotateTight(w: World, ev: Event)
    requires Sound(w) && Tight(w) && ev.Rotate? && Enabled(w, ev)
    ensures Tight(Step(w, ev)) <==> w.sessions[ev.handle].previous == None
  {
    var w' := Step(w, ev);
    var h := ev.handle;
    var bound :| bound in w.table.byIndex && w.table.byIndex[bound] == h;
    assert Live(w, h);
    var s := w.sessions[h];
    if s.previous.Some? {
      var stale := s.previous.value.epoch.local;
      IndexesOf(s, stale);
      IndexesOf(w'.sessions[h], stale);
      assert Lists(w, h, stale) && w'.table.byIndex[stale] == h;
      assert !Lists(w', h, stale);
    } else {
      forall index | index in w'.table.byIndex
        ensures Live(w', w'.table.byIndex[index]) && Lists(w', w'.table.byIndex[index], index)
      {
        IndexesOf(s, index);
        IndexesOf(w'.sessions[h], index);
        if index != ev.local { assert Live(w, w.table.byIndex[index]) && Lists(w, w.table.byIndex[index], index); }
      }
    }
  }

  lemma ExpireTight(w: World, ev: Event)
    requires Sound(w) && Tight(w) && ev.Expire? && Enabled(w, ev)
    ensures Tight(Step(w, ev))
  {
    var w' := Step(w, ev);
    forall index | index in w'.table.byIndex
      ensures Live(w', w'.table.byIndex[index]) && Lists(w', w'.table.byIndex[index], index)
    {
      var g := w.table.byIndex[index];
      assert Live(w, g) && Lists(w, g, index);
      IndexesOf(w.sessions[g], index);
      IndexesOf(w'.sessions[g], index);
    }
  }

  lemma RemoveTight(w: World, id: nat)
    requires Sound(w) && Tight(w)
    ensures Tight(Removed(w, id))
  {
    if id in w.table.byId {
      var w' := Removed(w, id);
      UnbindExact(w.table.byIndex, S.Indexes(w.sessions[w.table.byId[id]]));
      forall index | index in w'.table.byIndex
        ensures Live(w', w'.table.byIndex[index]) && Lists(w', w'.table.byIndex[index], index)
      {
        assert Live(w, w.table.byIndex[index]) && Lists(w, w.table.byIndex[index], index);
      }
    }
  }

  lemma StepTight(w: World, ev: Event)
    requires Sound(w) && Tight(w)
    ensures Tight(Step(w, ev)) <==> Orderly(w, ev)
  {
    if Enabled(w, ev) {
      match ev
      case Insert(id, role, keys, local, remote, now) =>
        InsertTight(w, id, S.NewState(role, keys, local, remote, now));
      case Rotate(_, _, _, _, _) => RotateTight(w, ev);
      case Expire(_, _, _) => ExpireTight(w, ev);
      case Remove(id) => RemoveTight(w, id);
    }
  }

  ghost predicate TightThroughout(evs: seq<Event>) {
    Tight(Run(evs)) && (evs != [] ==> TightThroughout(evs[..|evs| - 1]))
  }

  ghost predicate OrderlyThroughout(evs: seq<Event>) {
    evs != [] ==> OrderlyThroughout(evs[..|evs| - 1]) && Orderly(Run(evs[..|evs| - 1]), evs[|evs| - 1])
  }

  /** No index is stale at any point of a run exactly when every step of the run is orderly. */
  lemma {:induction false} TightExact(evs: seq<Event>)
    ensures TightThroughout(evs) <==> OrderlyThroughout(evs)
  {
    if evs != [] {
      var before := evs[..|evs| - 1];
      TightExact(before);
      if TightThroughout(before) {
        RunSound(before);
        StepTight(Run(before), evs[|evs| - 1]);
      }
    }
  }

  /** With no stale index, a table hit is a live session, and opening never answers "unknown index". */
  lemma HitIsKnown(w: World, h: Header, body: S.Body)
    requires Sound(w) && Tight(w) && h.receiverIndex in w.table.byIndex
    ensures var s := w.table.byIndex[h.receiverIndex];
            && Live(w, s) && s in w.sessions && !w.sessions[s].closed
            && S.Opening(w.sessions[s], h, body).1 != Err(UnknownIndex(h.receiverIndex))
  {
    var s := w.table.byIndex[h.receiverIndex];
    assert Live(w, s) && Lists(w, s, h.receiverIndex);
    IndexesOf(w.sessions[s], h.receiverIndex);
  }

  /** Rotating twice within the overlap leaves an index bound for good: it still resolves to the
      session after that session has been removed. */
  lemma StaleIndexSurvives(w: World, h: nat, first: Event, id: nat)
    requires Sound(w) && Tight(w) && first.Rotate? && first.handle == h && Enabled(w, first)
    requires w.sessions[h].previous.Some? && w.ids[h] == id
    ensures var stale := w.sessions[h].previous.value.epoch.local;
            var w' := Step(Step(w, first), Remove(id));
            stale in w'.table.byIndex && w'.table.byIndex[stale] == h && !Live(w', h) && w'.sessions[h].closed
  {
    var bound :| bound in w.table.byIndex && w.table.byIndex[bound] == h;
    assert Live(w, h);
    var stale := w.sessions[h].previous.value.epoch.local;
    IndexesOf(w.sessions[h], stale);
    assert Lists(w, h, stale);
    var w1 := Step(w, first);
    IndexesOf(w1.sessions[h], stale);
    UnbindExact(w1.table.byIndex, S.Indexes(w1.sessions[h]));
  }

  lemma RunAppend(evs: seq<Event>, ev: Event)
    ensures Run(evs + [ev]) == Step(Run(evs), ev)
  {
    assert (evs + [ev])[..|evs|] == evs;
  }

  /** A new session and its first rotation. */
  function Rotating(k: S.SessionKeys): seq<Event> {
    [Insert(7, S.Responder, k, 1, 9, 0), Rotate(0, k, 2, 9, 0)]
  }

  lemma RotatingRun(k: S.SessionKeys)
    ensures var w := Run(Rotating(k));
            && w.table.byIndex == map[1 := 0, 2 := 0] && w.ids == map[0 := 7] && Tight(w) && Sound(w)
            && w.sessions == map[0 := S.Rotated(S.NewState(S.Responder, k, 1, 9, 0), k, 2, 9, 0)]
  {
    var none: seq<Event> := [];
    var e1, e2 := Rotating(k)[0], Rotating(k)[1];
    var s0 := S.NewState(S.Responder, k, 1, 9, 0);
    assert none + [e1] + [e2] == Rotating(k);
    RunAppend(none, e1);
    RunAppend(none + [e1], e2);
    var w1 := Step(EMPTY, e1);
    BindOne(map[], s0, 0);
    assert w1.table.byIndex == map[1 := 0] && w1.sessions == map[0 := s0];
    assert w1.table.byIndex[1] in w1.table.byIndex.Values;
    RunSound(none + [e1]);
    RunSound(none + [e1] + [e2]);
    StepTight(EMPTY, e1);
    StepTight(w1, e2);
  }

  /** Insert, rotate, rotate again, remove: index 1 still resolves to the removed session. */
  lemma StaleRun(k: S.SessionKeys)
    ensures var w := Run(Rotating(k) + [Rotate(0, k, 3, 9, 0)] + [Remove(7)]);
            1 in w.table.byIndex && w.table.byIndex[1] == 0 && !Live(w, 0) && 0 in w.sessions && w.sessions[0].closed
  {
    var evs, again := Rotating(k), Rotate(0, k, 3, 9, 0);
    RotatingRun(k);
    var w := Run(evs);
    assert w.table.byIndex[1] in w.table.byIndex.Values;
    RunAppend(evs, again);
    RunAppend(evs + [again], Remove(7));
    StaleIndexSurvives(w, 0, again, 7);
  }
}
