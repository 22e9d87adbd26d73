/** The sliding anti-replay window and the send counter. */
module ReplayWindow {
  import opened Wrappers
  import opened Bytes

  const SIZE: nat := 2048

  datatype ReplayError = Replayed | TooOld

  datatype Window = Window(seen: set<nat>, highest: Option<nat>)

  const FRESH := Window({}, None)

  function Update(w: Window, c: nat): Result<Window, ReplayError> {
    if w.highest.None? then Ok(Window(w.seen + {c}, Some(c)))
    else
      var h := w.highest.value;
      if c > h then
        var kept := if c - h >= SIZE then {} else set x | x in w.seen && c - x < SIZE;
        Ok(Window(kept + {c}, Some(c)))
      else if h - c >= SIZE then Err(TooOld)
      else if c in w.seen then Err(Replayed)
      else Ok(Window(w.seen + {c}, w.highest))
  }

  // ---------- against a window that never forgets ----------

  /** The window a receiver with unbounded memory would want: new, and not too far behind anything accepted. */
  predicate Fresh(accepted: set<nat>, c: nat) {
    c !in accepted && forall a | a in accepted :: a < c + SIZE
  }

  ghost predicate Represents(w: Window, accepted: set<nat>) {
    match w.highest
    case None => accepted == {} && w.seen == {}
    case Some(h) => h in accepted && (forall a :: a in accepted ==> a <= h)
                    && w.seen == set a | a in accepted && h - a < SIZE
  }

  /** One update accepts exactly the fresh counters and keeps representing everything accepted. */
  lemma UpdateRefines(w: Window, accepted: set<nat>, c: nat)
    requires Represents(w, accepted)
    ensures Update(w, c).Ok? <==> Fresh(accepted, c)
    ensures Update(w, c).Ok? ==> Represents(Update(w, c).value, accepted + {c})
  {
  }

  datatype History = History(window: Window, accepted: set<nat>)

  /** Feed counters in order; the second component is the ideal memory. */
  function Feed(cs: seq<nat>): History {
    if cs == [] then History(FRESH, {})
    else
      var before := Feed(cs[..|cs| - 1]);
      var c := cs[|cs| - 1];
      match Update(before.window, c)
      case Ok(w) => History(w, before.accepted + {c})
      case Err(_) => before
  }

  predicate AcceptedAt(cs: seq<nat>, i: nat)
    requires i < |cs|
  {
    Update(Feed(cs[..i]).window, cs[i]).Ok?
  }

  lemma {:induction false} FeedRepresents(cs: seq<nat>)
    ensures Represents(Feed(cs).window, Feed(cs).accepted)
    ensures forall i :: 0 <= i < |cs| && AcceptedAt(cs, i) ==> cs[i] in Feed(cs).accepted
  {
    if cs != [] {
      var n := |cs| - 1;
      FeedRepresents(cs[..n]);
      UpdateRefines(Feed(cs[..n]).window, Feed(cs[..n]).accepted, cs[n]);
      forall i | 0 <= i < n && AcceptedAt(cs, i) ensures cs[i] in Feed(cs).accepted {
        assert cs[..n][..i] == cs[..i];
        assert AcceptedAt(cs[..n], i);
      }
    }
  }

  /** Over any sequence of arrivals each counter is accepted at most once, and one is refused only
      if it repeats or lags the highest accepted by the window size. */
  lemma AcceptedOnce(cs: seq<nat>, i: nat, j: nat)
    requires i < j < |cs| && AcceptedAt(cs, i) && AcceptedAt(cs, j)
    ensures cs[i] != cs[j]
  {
    FeedRepresents(cs[..j]);
    assert cs[..j][..i] == cs[..i];
    assert AcceptedAt(cs[..j], i);
    UpdateRefines(Feed(cs[..j]).window, Feed(cs[..j]).accepted, cs[j]);
  }

  lemma RefusedForCause(cs: seq<nat>, j: nat)
    requires j < |cs|
    ensures AcceptedAt(cs, j) <==> Fresh(Feed(cs[..j]).accepted, cs[j])
  {
    FeedRepresents(cs[..j]);
    UpdateRefines(Feed(cs[..j]).window, Feed(cs[..j]).accepted, cs[j]);
  }

  // ---------- refusal is permanent ----------

  predicate Refuses(w: Window, c: nat) { Update(w, c).Err? }

  lemma AcceptedThenRefused(w: Window, c: nat)
    requires Update(w, c).Ok?
    ensures Refuses(Update(w, c).value, c)
  {
  }

  lemma RefusedForever(w: Window, c: nat, d: nat)
    requires Refuses(w, c) && Update(w, d).Ok?
    ensures Refuses(Update(w, d).value, c)
  {
  }

  // ---------- the objects ----------

  class Receiver {
    var seen: set<nat>
    var highest: Option<nat>

    constructor ()
      ensures View() == FRESH
    {
      seen := {};
      highest := None;
    }

    function View(): Window
      reads this
    {
      Window(seen, highest)
    }

    method CheckAndUpdate(counter: nat) returns (r: Result<(), ReplayError>)
      modifies this
      ensures match Update(old(View()), counter)
              case Ok(w) => r == Ok(()) && View() == w
              case Err(e) => r == Err(e) && View() == old(View())
    {
      if highest.None? {
        seen := seen + {counter};
        highest := Some(counter);
        return Ok(());
      }
      if counter > highest.value {
        if counter - highest.value >= SIZE {
          seen := {};
        } else {
          seen := set c | c in seen && counter - c < SIZE;
        }
        seen := seen + {counter};
        highest := Some(counter);
        return Ok(());
      }
      if highest.value - counter >= SIZE { return Err(TooOld); }
      if counter in seen { return Err(Replayed); }
      seen := seen + {counter};
      r := Ok(());
    }
  }

  const LIMIT: u64 := 0xffff_ffff_ffff_fffe

  /** Values are handed out in order, and none at all once the limit is reached. */
  class SendCounter {
    var value: u64

    constructor ()
      ensures value == 0
    {
      value := 0;
    }

    method Next() returns (r: Option<u64>)
      modifies this
      ensures old(value) < LIMIT ==> r == Some(old(value)) && value == old(value) + 1
      ensures old(value) >= LIMIT ==> r == None && value == old(value)
    {
      if value >= LIMIT { return None; }
      r := Some(value);
      value := value + 1;
    }
  }
}
