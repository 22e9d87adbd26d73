/** Recurring time windows: when one is active, and when that next changes. */
module Schedule {
  import opened Wrappers
  import opened PolicySpec

  const DAY: int := 86_400
  const WEEK: int := 604_800
  const SCAN_LIMIT: int := 691_200

  /** The offset set by the last change at or before `t`. */
  function OffsetAt(z: Zone, t: int): int
    decreases |z.changes|
  {
    if z.changes == [] then z.first
    else
      var (at, offset) := z.changes[|z.changes| - 1];
      if at <= t then offset else OffsetAt(z.(changes := z.changes[..|z.changes| - 1]), t)
  }

  datatype Window = Window(zone: Zone, start: nat, end: nat, days: seq<Weekday>)

  function ParseWindow(tz: TzDb, w: TimeWindow): Result<Window, SpecError> {
    if w.timezone !in tz then Err(Timezone(w.timezone))
    else
      var s := ParseHhmm(w.start);
      var e := ParseHhmm(w.end);
      if s.Err? then Err(s.error) else if e.Err? then Err(e.error)
      else Ok(Window(tz[w.timezone], s.value, e.value, w.days))
  }

  function MinuteOfDay(local: int): int { local % DAY / 60 }

  /** 1 January 1970 was a Thursday. */
  function Today(local: int): Weekday { (local / DAY + 3) % 7 }

  function Yesterday(local: int): Weekday { (Today(local) + 6) % 7 }

  predicate Active(w: Window, t: int) {
    var local := t + OffsetAt(w.zone, t);
    var minute := MinuteOfDay(local);
    if w.start <= w.end then Today(local) in w.days && w.start <= minute <= w.end
    else (Today(local) in w.days && minute >= w.start) || (Yesterday(local) in w.days && minute <= w.end)
  }

  function WindowActive(tz: TzDb, w: TimeWindow, t: int): Result<bool, SpecError> {
    var p := ParseWindow(tz, w);
    if p.Err? then Err(p.error) else Ok(Active(p.value, t))
  }

  /** Remainder that takes the sign of the dividend. */
  function TruncatedRemainder(a: int, b: nat): int
    requires b > 0
  {
    if a >= 0 then a % b else -((-a) % b)
  }

  /** The first candidate at or after `t`, in steps of a minute, where activity differs. */
  function Scan(w: Window, current: bool, t: int, limit: int): int
    decreases limit - t
  {
    if t > limit then limit
    else if Active(w, t) != current then t
    else Scan(w, current, t + 60, limit)
  }

  function FirstCandidate(now: int): int { now - TruncatedRemainder(now, 60) + 60 }

  function NextChange(w: Window, now: int): int {
    Scan(w, Active(w, now), FirstCandidate(now), now + SCAN_LIMIT)
  }

  /** Scan forward minute by minute, bounded to eight days. */
  method NextWindowChange(tz: TzDb, w: TimeWindow, now: int) returns (r: Result<int, SpecError>)
    ensures ParseWindow(tz, w).Err? ==> r == Err(ParseWindow(tz, w).error)
    ensures ParseWindow(tz, w).Ok? ==> r == Ok(NextChange(ParseWindow(tz, w).value, now))
  {
    var current := WindowActive(tz, w, now);
    if current.Err? { return Err(current.error); }
    ghost var p := ParseWindow(tz, w).value;
    var t := now - TruncatedRemainder(now, 60) + 60;
    var limit := now + 8 * DAY;
    while t <= limit
      invariant NextChange(p, now) == Scan(p, current.value, t, limit)
      decreases limit - t
    {
      if WindowActive(tz, w, t) != current { return Ok(t); }
      t := t + 60;
    }
    r := Ok(limit);
  }

  // ---------- activity only changes on whole minutes ----------

  predicate WholeMinutes(z: Zone) {
    z.first % 60 == 0 && forall i | 0 <= i < |z.changes| :: z.changes[i].0 % 60 == 0 && z.changes[i].1 % 60 == 0
  }

  lemma {:induction false} OffsetSteps(z: Zone, t: int, u: int)
    requires WholeMinutes(z) && t / 60 == u / 60
    ensures OffsetAt(z, t) == OffsetAt(z, u) && OffsetAt(z, t) % 60 == 0
    decreases |z.changes|
  {
    if z.changes != [] {
      var n := |z.changes| - 1;
      assert z.changes[n].0 % 60 == 0 && z.changes[n].1 % 60 == 0;
      OffsetSteps(z.(changes := z.changes[..n]), t, u);
    }
  }

  lemma LocalMinutes(a: int, b: int)
    requires a / 60 == b / 60
    ensures MinuteOfDay(a) == MinuteOfDay(b) && a / DAY == b / DAY
  {
    assert a / DAY == a / 60 / 1440 && b / DAY == b / 60 / 1440;
  }

  lemma ConstantWithinMinute(w: Window, t: int, u: int)
    requires WholeMinutes(w.zone) && t / 60 == u / 60
    ensures Active(w, t) == Active(w, u)
  {
    OffsetSteps(w.zone, t, u);
    var o := OffsetAt(w.zone, t);
    assert (t + o) / 60 == (u + o) / 60;
    LocalMinutes(t + o, u + o);
  }

  ghost predicate Constant(w: Window, from: int, to: int) {
    forall u :: from <= u < to ==> Active(w, u) == Active(w, from)
  }

  lemma {:induction false} ScanSkipsNothing(w: Window, now: int, t: int, limit: int)
    requires WholeMinutes(w.zone) && t % 60 == 0 && now < t && now < limit
    requires Constant(w, now, t)
    ensures var r := Scan(w, Active(w, now), t, limit);
            && Constant(w, now, r) && now < r <= limit
            && (Active(w, r) != Active(w, now) || r == limit)
    decreases limit - t
  {
    if t <= limit && Active(w, t) == Active(w, now) {
      forall u | t <= u < t + 60 ensures Active(w, u) == Active(w, now) {
        ConstantWithinMinute(w, t, u);
      }
      ScanSkipsNothing(w, now, t + 60, limit);
    }
  }

  /** The instant is late enough, or round enough, for the truncated remainder to round down. */
  predicate RoundsDown(now: int) { now >= 0 || now % 60 == 0 }

  /** The reported change is ahead, at most eight days off, nothing changes before it, and it is
      a change unless eight days passed without one. */
  lemma NextChangeIsNext(w: Window, now: int)
    requires WholeMinutes(w.zone) && RoundsDown(now)
    ensures var r := NextChange(w, now);
            && now < r <= now + SCAN_LIMIT && Constant(w, now, r)
            && (Active(w, r) != Active(w, now) || r == now + SCAN_LIMIT)
  {
    var t := FirstCandidate(now);
    assert t % 60 == 0 && now < t <= now + 60;
    forall u | now <= u < t ensures Active(w, u) == Active(w, now) {
      ConstantWithinMinute(w, now, u);
    }
    ScanSkipsNothing(w, now, t, now + SCAN_LIMIT);
  }

  // ---------- weekly periodicity in a zone that never changes its offset ----------

  lemma WeekLater(local: int, k: int)
    ensures MinuteOfDay(local + k * WEEK) == MinuteOfDay(local)
    ensures Today(local + k * WEEK) == Today(local)
  {
    assert local + k * WEEK == local + (7 * k) * DAY;
    assert (local + (7 * k) * DAY) % DAY == local % DAY && (local + (7 * k) * DAY) / DAY == local / DAY + 7 * k;
  }

  lemma RepeatsWeekly(w: Window, t: int, k: int)
    requires w.zone.changes == []
    ensures Active(w, t + k * WEEK) == Active(w, t)
  {
    WeekLater(t + w.zone.first, k);
  }

  /** With a fixed offset the reported change is a real one, or there is none at any time. */
  lemma NextChangeOrNever(w: Window, now: int)
    requires w.zone.changes == [] && w.zone.first % 60 == 0 && RoundsDown(now)
    ensures Active(w, NextChange(w, now)) != Active(w, now) || forall t :: Active(w, t) == Active(w, now)
  {
    NextChangeIsNext(w, now);
    if Active(w, NextChange(w, now)) == Active(w, now) {
      forall t ensures Active(w, t) == Active(w, now) {
        var u := now + (t - now) % WEEK;
        var k := (t - now) / WEEK;
        assert t == u + k * WEEK;
        RepeatsWeekly(w, u, k);
        assert now <= u < NextChange(w, now);
      }
    }
  }

  // ---------- exactly which instants are safe to scan from ----------

  ghost predicate ScanMissesNothing(now: int) {
    forall w: Window :: WholeMinutes(w.zone) ==> Constant(w, now, NextChange(w, now))
  }

  lemma {:induction false} ScanStartsAt(w: Window, current: bool, t: int, limit: int)
    ensures Scan(w, current, t, limit) >= t || Scan(w, current, t, limit) == limit
    decreases limit - t
  {
    if t <= limit && Active(w, t) == current { ScanStartsAt(w, current, t + 60, limit); }
  }

  /** A one-minute window at the minute the scan jumps over. */
  lemma SkippedMinute(now: int) returns (w: Window)
    requires !RoundsDown(now)
    ensures WholeMinutes(w.zone) && !Constant(w, now, NextChange(w, now))
  {
    var skipped := now - now % 60 + 60;
    assert FirstCandidate(now) == skipped + 60 by { assert (-now) % 60 == 60 - now % 60; }
    var m := MinuteOfDay(skipped);
    w := Window(Zone(0, []), m, m, [0, 1, 2, 3, 4, 5, 6]);
    assert Active(w, skipped) by { assert w.days[Today(skipped)] == Today(skipped); }
    assert !Active(w, now) by { MinutesDiffer(now); }
    ScanStartsAt(w, false, FirstCandidate(now), now + SCAN_LIMIT);
  }

  lemma MinutesDiffer(now: int)
    requires now % 60 != 0
    ensures MinuteOfDay(now) != MinuteOfDay(now - now % 60 + 60)
  {
    assert MinuteOfDay(now) == now / 60 % 1440;
    assert MinuteOfDay(now - now % 60 + 60) == (now / 60 + 1) % 1440;
  }

  /** Before 1970 the remainder rounds up, so a scan from inside a minute jumps over the next one. */
  lemma ScanMissesNothingExact(now: int)
    ensures ScanMissesNothing(now) <==> RoundsDown(now)
  {
    if RoundsDown(now) {
      forall w: Window | WholeMinutes(w.zone) ensures Constant(w, now, NextChange(w, now)) {
        NextChangeIsNext(w, now);
      }
    } else {
      var w := SkippedMinute(now);
    }
  }
}
