/** The progress throttle of a transfer worker: at most four events in any second. */
module Throttle {
  import opened Common

  const MAX_EVENTS_PER_SEC := 4
  const THROTTLE_MS := 1000 / MAX_EVENTS_PER_SEC

  datatype Gate = Gate(last: Option<nat>, emitted: nat)

  predicate Passes(g: Gate, now: nat) {
    g.last.None? || now - g.last.value >= THROTTLE_MS
  }

  function Emit(g: Gate, now: nat): Gate {
    if Passes(g, now) then Gate(Some(now), g.emitted + 1) else g
  }

  /** The times at which events are published when `emit_progress` is called at `times`. */
  function Published(g: Gate, times: seq<nat>): seq<nat>
    decreases |times|
  {
    if times == [] then []
    else (if Passes(g, times[0]) then [times[0]] else []) + Published(Emit(g, times[0]), times[1..])
  }

  function GateAfter(g: Gate, times: seq<nat>): Gate
    decreases |times|
  {
    if times == [] then g else GateAfter(Emit(g, times[0]), times[1..])
  }

  ghost predicate NonDecreasing(times: seq<nat>) {
    forall i, j | 0 <= i < j < |times| :: times[i] <= times[j]
  }

  /** Consecutive times are at least a throttle window apart. */
  ghost predicate Spaced(ps: seq<nat>) {
    forall i | 0 <= i < |ps| - 1 :: ps[i] + THROTTLE_MS <= ps[i + 1]
  }

  lemma {:induction false} PublishedIsSpaced(g: Gate, times: seq<nat>)
    requires NonDecreasing(times)
    ensures var ps := Published(g, times);
            Spaced(ps) && (ps != [] && g.last.Some? ==> g.last.value + THROTTLE_MS <= ps[0])
    decreases |times|
  {
    if times != [] {
      PublishedIsSpaced(Emit(g, times[0]), times[1..]);
    }
  }

  lemma {:induction false} EmittedCounts(g: Gate, times: seq<nat>)
    ensures GateAfter(g, times).emitted == g.emitted + |Published(g, times)|
    decreases |times|
  {
    if times != [] {
      EmittedCounts(Emit(g, times[0]), times[1..]);
    }
  }

  /** How many of the times fall into the half-open interval [lo, hi). */
  function CountIn(ps: seq<nat>, lo: nat, hi: nat): nat
    decreases |ps|
  {
    if ps == [] then 0 else (if lo <= ps[0] < hi then 1 else 0) + CountIn(ps[1..], lo, hi)
  }

  lemma {:induction false} SpacedCount(ps: seq<nat>, lo: nat, hi: nat)
    requires Spaced(ps)
    ensures CountIn(ps, lo, hi) > 0 ==>
              lo < hi && (CountIn(ps, lo, hi) - 1) * THROTTLE_MS < hi - lo
              && (ps[0] >= lo ==> (CountIn(ps, lo, hi) - 1) * THROTTLE_MS < hi - ps[0])
    decreases |ps|
  {
    if ps != [] {
      assert forall i | 0 <= i < |ps| - 1 :: ps[i] + THROTTLE_MS <= ps[i + 1];
      assert Spaced(ps[1..]);
      SpacedCount(ps[1..], lo, hi);
    }
  }

  /** For any run of calls on one worker under a clock that does not go back: published events are at
      least 250 ms apart, any half-open second holds at most four, and the counter counts them. */
  lemma RateBound(g: Gate, times: seq<nat>, start: nat)
    requires NonDecreasing(times)
    ensures Spaced(Published(g, times))
    ensures CountIn(Published(g, times), start, start + 1000) <= MAX_EVENTS_PER_SEC
    ensures GateAfter(g, times).emitted == g.emitted + |Published(g, times)|
  {
    PublishedIsSpaced(g, times);
    SpacedCount(Published(g, times), start, start + 1000);
    EmittedCounts(g, times);
  }

  /** Within 250 ms after an event that was published. */
  ghost predicate JustAfter(ps: seq<nat>, now: nat) {
    exists i :: 0 <= i < |ps| && ps[i] <= now < ps[i] + 250
  }

  /** And nothing is held back longer than that: whenever progress is reported, an event went out at
      that moment or less than 250 ms before. */
  lemma {:induction false} NeverSilentForLong(g: Gate, times: seq<nat>, k: nat)
    requires NonDecreasing(times) && k < |times| && (g.last.Some? ==> g.last.value <= times[0])
    ensures JustAfter((if g.last.Some? then [g.last.value] else []) + Published(g, times), times[k])
    decreases |times|
  {
    var now := times[0];
    var before := if g.last.Some? then [g.last.value] else [];
    var later := Published(Emit(g, now), times[1..]);
    if k == 0 {
      if Passes(g, now) {
        assert (before + Published(g, times))[|before|] == now;
      } else {
        assert (before + Published(g, times))[0] == g.last.value;
      }
    } else {
      NeverSilentForLong(Emit(g, now), times[1..], k - 1);
      var mid := [Emit(g, now).last.value] + later;
      var i :| 0 <= i < |mid| && mid[i] <= times[k] < mid[i] + 250;
      if Passes(g, now) {
        assert Published(g, times) == mid;
        assert (before + mid)[|before| + i] == mid[i];
      } else {
        assert before + Published(g, times) == mid;
      }
    }
  }

  class ProgressGate {
    var last: Option<nat>
    var emitted: nat

    constructor ()
      ensures State() == Gate(None, 0)
    {
      last, emitted := None, 0;
    }

    ghost function State(): Gate
      reads this
    {
      Gate(last, emitted)
    }

    method EmitProgress(now: nat) returns (published: bool)
      modifies this
      ensures published == Passes(old(State()), now) && State() == Emit(old(State()), now)
    {
      published := last.None? || now - last.value >= THROTTLE_MS;
      if published {
        last := Some(now);
        emitted := emitted + 1;
      }
    }
  }
}
