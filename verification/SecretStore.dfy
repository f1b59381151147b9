/**
 The live secret handle table.  Handles are numbered by a 64-bit counter; the reaper, an
 explicit release and the lock all remove entries.
 */
module SecretStore {
  import opened Common

  /** Values of the 64-bit handle counter, which wraps. */
  const ID_SPACE := 0x1_0000_0000_0000_0000

  type Secret = string

  datatype Store = Store(table: map<nat, Secret>, next: nat)

  datatype Event = Reveal(secret: Secret) | Release(handle: nat) | Reap(idle: set<nat>) | ClearAll

  const EMPTY := Store(map[], 1)

  function Step(s: Store, e: Event): Store {
    match e
    case Reveal(secret) => Store(s.table[s.next := secret], (s.next + 1) % ID_SPACE)
    case Release(h) => s.(table := s.table - {h})
    case Reap(idle) => s.(table := s.table - idle)
    case ClearAll => s.(table := map[])
  }

  /** The store after a history, starting from a new client. */
  function After(events: seq<Event>): Store {
    if events == [] then EMPTY else Step(After(events[..|events| - 1]), events[|events| - 1])
  }

  // ------------------------------------------------------------------- reference view

  function Reveals(events: seq<Event>): nat {
    if events == [] then 0
    else Reveals(events[..|events| - 1]) + if events[|events| - 1].Reveal? then 1 else 0
  }

  /** The handle returned by the reveal at position `i`. */
  function HandleAt(events: seq<Event>, i: nat): nat
    requires i < |events|
  {
    (1 + Reveals(events[..i])) % ID_SPACE
  }

  predicate Removes(e: Event, h: nat) {
    match e
    case Reveal(_) => false
    case Release(x) => x == h
    case Reap(idle) => h in idle
    case ClearAll => true
  }

  /** The reveal at `i` returned `h`, stored `secret`, and nothing has removed `h` since. */
  ghost predicate LiveSince(events: seq<Event>, i: nat, h: nat, secret: Secret) {
    && i < |events| && events[i] == Reveal(secret) && HandleAt(events, i) == h
    && forall j | i < j < |events| :: !Removes(events[j], h)
  }

  lemma {:induction false} CounterIsRevealCount(events: seq<Event>)
    ensures After(events).next == (1 + Reveals(events)) % ID_SPACE
    decreases |events|
  {
    if events != [] {
      CounterIsRevealCount(events[..|events| - 1]);
    }
  }

  lemma {:induction false} RevealsMonotone(events: seq<Event>, i: nat)
    requires i <= |events|
    ensures Reveals(events[..i]) <= Reveals(events)
    ensures i < |events| && events[i].Reveal? ==> Reveals(events[..i]) < Reveals(events)
    decreases |events|
  {
    if i == |events| {
      assert events[..i] == events;
    } else {
      var prefix := events[..|events| - 1];
      assert prefix[..i] == events[..i];
      if i < |prefix| {
        assert prefix[i] == events[i];
      }
      RevealsMonotone(prefix, i);
    }
  }

  /** Two reveals share a handle exactly when the counter went all the way round between them. */
  lemma HandleReusedIff(events: seq<Event>, i: nat, j: nat)
    requires i < j < |events| && events[i].Reveal? && events[j].Reveal?
    ensures Reveals(events[..i]) < Reveals(events[..j])
    ensures HandleAt(events, i) == HandleAt(events, j)
       <==> (Reveals(events[..j]) - Reveals(events[..i])) % ID_SPACE == 0
  {
    assert events[..j][..i] == events[..i] && events[..j][i] == events[i];
    RevealsMonotone(events[..j], i);
    var a, b := 1 + Reveals(events[..i]), 1 + Reveals(events[..j]);
    assert (a % ID_SPACE == b % ID_SPACE) <==> (b - a) % ID_SPACE == 0;
  }

  /** As long as the counter has not wrapped past its start, handles are never reused. */
  lemma HandlesAreFresh(events: seq<Event>, i: nat, j: nat)
    requires Reveals(events) <= ID_SPACE && i < j < |events| && events[i].Reveal? && events[j].Reveal?
    ensures HandleAt(events, i) != HandleAt(events, j)
  {
    HandleReusedIff(events, i, j);
    RevealsMonotone(events, j);
  }

  lemma LiveInPrefix(events: seq<Event>, i: nat, k: nat, h: nat, secret: Secret)
    requires i < k <= |events| && LiveSince(events, i, h, secret)
    ensures LiveSince(events[..k], i, h, secret)
  {
    assert events[..k][..i] == events[..i];
  }

  lemma LiveOneLonger(events: seq<Event>, i: nat, h: nat, secret: Secret)
    requires events != [] && LiveSince(events[..|events| - 1], i, h, secret) && !Removes(events[|events| - 1], h)
    ensures LiveSince(events, i, h, secret)
  {
    assert events[..|events| - 1][..i] == events[..i];
  }

  /** The table answers for `h` exactly what the one reveal that returned `h` stored, and only
      while no release, reaping or clearing of `h` has happened since. */
  lemma {:induction false} AccessIff(events: seq<Event>, h: nat, secret: Secret)
    requires Reveals(events) <= ID_SPACE
    ensures (h in After(events).table && After(events).table[h] == secret)
       <==> exists i: nat :: LiveSince(events, i, h, secret)
    decreases |events|
  {
    if events != [] {
      var n := |events| - 1;
      var prefix, e := events[..n], events[n];
      RevealsMonotone(events, n);
      AccessIff(prefix, h, secret);
      CounterIsRevealCount(prefix);
      if exists i: nat :: LiveSince(events, i, h, secret) {
        var i: nat :| LiveSince(events, i, h, secret);
        if i < n {
          LiveInPrefix(events, i, n, h, secret);
          if e.Reveal? {
            HandlesAreFresh(events, i, n);
          }
        }
      }
      if h in After(events).table && After(events).table[h] == secret {
        if e.Reveal? && HandleAt(events, n) == h {
          assert LiveSince(events, n, h, secret);
        } else {
          var i: nat :| LiveSince(prefix, i, h, secret);
          LiveOneLonger(events, i, h, secret);
        }
      }
    }
  }

  /** A handle belongs to one reveal. */
  lemma OneRevealPerHandle(events: seq<Event>, i: nat, j: nat)
    requires Reveals(events) <= ID_SPACE && i < |events| && j < |events| && events[i].Reveal? && events[j].Reveal?
    requires HandleAt(events, i) == HandleAt(events, j)
    ensures i == j
  {
    if i < j {
      HandlesAreFresh(events, i, j);
    } else if j < i {
      HandlesAreFresh(events, j, i);
    }
  }

  /** Once a returned handle is gone it stays gone, through locks and later unlocks. */
  lemma GoneIsForever(events: seq<Event>, i: nat, k: nat)
    requires Reveals(events) <= ID_SPACE && i < k <= |events| && events[i].Reveal?
    requires HandleAt(events, i) !in After(events[..k]).table
    ensures HandleAt(events, i) !in After(events).table
  {
    var h := HandleAt(events, i);
    if h in After(events).table {
      var secret := After(events).table[h];
      AccessIff(events, h, secret);
      var j: nat :| LiveSince(events, j, h, secret);
      OneRevealPerHandle(events, i, j);
      LiveInPrefix(events, i, k, h, secret);
      RevealsMonotone(events, k);
      AccessIff(events[..k], h, secret);
    }
  }

  // ------------------------------------------------------------------- the running code

  /** The handle table with the history that led to it. */
  class SecretHandles {
    var table: map<nat, Secret>
    var next: nat
    ghost var history: seq<Event>

    ghost predicate Valid()
      reads this
    {
      Store(table, next) == After(history)
    }

    constructor ()
      ensures Valid() && history == []
    {
      table, next, history := map[], 1, [];
    }

    method Reveal(secret: Secret) returns (handle: nat)
      requires Valid()
      modifies this
      ensures Valid() && history == old(history) + [Event.Reveal(secret)]
      ensures handle == HandleAt(history, |old(history)|)
    {
      CounterIsRevealCount(history);
      handle := next;
      next := (next + 1) % ID_SPACE;
      table := table[handle := secret];
      history := history + [Event.Reveal(secret)];
      assert history[..|history| - 1] == old(history);
    }

    /** Yields exactly what the one reveal that returned the handle stored, and only while nothing
        has removed it since. */
    method Access(handle: nat) returns (secret: Option<Secret>)
      requires Valid()
      ensures Reveals(history) <= ID_SPACE ==>
                forall s :: secret == Some(s) <==> exists i: nat :: LiveSince(history, i, handle, s)
    {
      secret := if handle in table then Some(table[handle]) else None;
      if Reveals(history) <= ID_SPACE {
        forall s
          ensures secret == Some(s) <==> exists i: nat :: LiveSince(history, i, handle, s)
        {
          AccessIff(history, handle, s);
        }
      }
    }

    method Release(handle: nat)
      requires Valid()
      modifies this`table, this`history
      ensures Valid() && history == old(history) + [Event.Release(handle)]
      ensures handle !in table
    {
      table := table - {handle};
      history := history + [Event.Release(handle)];
      assert history[..|history| - 1] == old(history);
    }

    /** The reaper drops whatever has been idle too long. */
    method Reap(idle: set<nat>)
      requires Valid()
      modifies this`table, this`history
      ensures Valid() && history == old(history) + [Event.Reap(idle)]
    {
      table := table - idle;
      history := history + [Event.Reap(idle)];
      assert history[..|history| - 1] == old(history);
    }

    method ClearAll()
      requires Valid()
      modifies this`table, this`history
      ensures Valid() && history == old(history) + [Event.ClearAll]
      ensures table == map[]
    {
      table := map[];
      history := history + [Event.ClearAll];
      assert history[..|history| - 1] == old(history);
    }
  }
}
