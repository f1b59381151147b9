/**
 Any number of flushes of the offline queue at once.  Each walks its own snapshot;
 committing an entry and removing a matching head are separate steps, and nothing spans
 them.  Only some overlaps lose a mutation; the results below say which.
 */
module OfflineFlushers {
  import opened Common
  import opened Crypto
  import opened LocalDb
  import opened Offline

  // ------------------------------------------------------------------- when a difference shows

  /** What a row says, whenever it was created. */
  ghost function ContentsAt(rows: Rows, u: Uuid): Option<Row> {
    if u in rows then Some(rows[u].(createdAt := 0)) else None
  }

  ghost predicate SameElsewhere(a: Rows, b: Rows, u: Uuid) {
    forall v | v != u :: ContentsAt(a, v) == ContentsAt(b, v)
  }

  lemma SameContentsIff(a: Rows, b: Rows, u: Uuid)
    requires SameElsewhere(a, b, u)
    ensures SameContents(a, b) <==> ContentsAt(a, u) == ContentsAt(b, u)
  {
    if ContentsAt(a, u) == ContentsAt(b, u) {
      assert forall v :: ContentsAt(a, v) == ContentsAt(b, v);
      assert forall v | v in a :: ContentsAt(a, v) == ContentsAt(b, v);
      assert forall v | v in b :: ContentsAt(a, v) == ContentsAt(b, v);
    }
  }

  lemma CommitElsewhere(m: QueuedMutation, a: Store, b: Store, u: Uuid)
    requires SameElsewhere(a.rows, b.rows, u)
    ensures SameElsewhere(Commit(m, a).rows, Commit(m, b).rows, u)
  {
    forall v | v != u
      ensures ContentsAt(Commit(m, a).rows, v) == ContentsAt(Commit(m, b).rows, v)
    {
      assert ContentsAt(a.rows, v) == ContentsAt(b.rows, v);
    }
  }

  /** A difference in one item is erased by a queued deletion, is reduced to the version by a queued
      save, and otherwise stays. */
  ghost predicate Erases(q: seq<QueuedMutation>, a: Rows, b: Rows, u: Uuid) {
    || Delete(u) in q
    || (if Saves(q, u) then VersionOrOne(a, u) == VersionOrOne(b, u) else ContentsAt(a, u) == ContentsAt(b, u))
  }

  lemma ErasesStep(m: QueuedMutation, rest: seq<QueuedMutation>, a: Store, b: Store, u: Uuid)
    requires SameElsewhere(a.rows, b.rows, u)
    ensures Erases([m] + rest, a.rows, b.rows, u) <==> Erases(rest, Commit(m, a).rows, Commit(m, b).rows, u)
  {
    assert Saves([m] + rest, u) <==> (m.Save? && m.uuid == u) || Saves(rest, u);
    assert Delete(u) in [m] + rest <==> m == Delete(u) || Delete(u) in rest;
  }

  lemma {:induction false} ReplaySameIff(q: seq<QueuedMutation>, a: Store, b: Store, u: Uuid)
    requires SameElsewhere(a.rows, b.rows, u)
    ensures SameContents(Replay(q, a).rows, Replay(q, b).rows) <==> Erases(q, a.rows, b.rows, u)
    decreases |q|
  {
    if q == [] {
      SameContentsIff(a.rows, b.rows, u);
    } else {
      assert q == [q[0]] + q[1..];
      CommitElsewhere(q[0], a, b, u);
      ErasesStep(q[0], q[1..], a, b, u);
      ReplaySameIff(q[1..], Commit(q[0], a), Commit(q[0], b), u);
    }
  }

  // ------------------------------------------------------------------- one commit, one removal

  /** The store already says of the item what `m` would make of it. */
  ghost predicate Reflects(st: Store, m: QueuedMutation) {
    ContentsAt(Commit(m, st).rows, m.uuid) == ContentsAt(st.rows, m.uuid)
  }

  /** Committing `m` now changes nothing in the end: the queue has the last word on the item, or the
      store says it already. */
  ghost predicate CommitHarmless(q: seq<QueuedMutation>, m: QueuedMutation, st: Store) {
    || Delete(m.uuid) in q
    || (if Saves(q, m.uuid) then m.Save? || VersionOrOne(st.rows, m.uuid) == 1 else Reflects(st, m))
  }

  /** Removing the head changes nothing in the end, by the same reasoning on the rest of the queue. */
  ghost predicate RemovalHarmless(q: seq<QueuedMutation>, st: Store)
    requires q != []
  {
    CommitHarmless(q[1..], q[0], st)
  }

  lemma CommitHarmlessIff(q: seq<QueuedMutation>, m: QueuedMutation, st: Store)
    ensures SameContents(Replay(q, Commit(m, st)).rows, Replay(q, st).rows) <==> CommitHarmless(q, m, st)
  {
    assert SameElsewhere(Commit(m, st).rows, st.rows, m.uuid);
    ReplaySameIff(q, Commit(m, st), st, m.uuid);
  }

  lemma SameContentsSymmetric(a: Rows, b: Rows)
    ensures SameContents(a, b) <==> SameContents(b, a)
  {
  }

  lemma RemovalHarmlessIff(q: seq<QueuedMutation>, st: Store)
    requires q != []
    ensures SameContents(Replay(q[1..], st).rows, Replay(q, st).rows) <==> RemovalHarmless(q, st)
  {
    CommitHarmlessIff(q[1..], q[0], st);
    SameContentsSymmetric(Replay(q[1..], st).rows, Replay(q, st).rows);
  }

  // ------------------------------------------------------------------- a flush round on any store

  ghost predicate SameMutation(a: QueuedMutation, b: QueuedMutation) {
    if a.Save? && b.Save? then a.(createdAt := 0) == b.(createdAt := 0) else a == b
  }

  /** Read off the queue alone. */
  ghost predicate RoundSafe(q: seq<QueuedMutation>, m: QueuedMutation) {
    || Delete(m.uuid) in q
    || (m.Save? && (Saves(PopIfMatching(q, m), m.uuid) || (q != [] && SameMutation(q[0], m))))
  }

  /** One round on one store: commit, then remove a matching head. */
  ghost predicate RoundKeeps(q: seq<QueuedMutation>, m: QueuedMutation, st: Store) {
    SameContents(Replay(PopIfMatching(q, m), Commit(m, st)).rows, Replay(q, st).rows)
  }

  lemma RoundWithRemoval(q: seq<QueuedMutation>, m: QueuedMutation, st: Store)
    requires q != [] && Matches(q[0], m)
    ensures RoundKeeps(q, m, st) <==>
            m.Delete? || Delete(m.uuid) in q[1..] || Saves(q[1..], m.uuid) || SameMutation(q[0], m)
  {
    var a, b := Commit(m, st), Commit(q[0], st);
    assert SameElsewhere(a.rows, b.rows, m.uuid);
    ReplaySameIff(q[1..], a, b, m.uuid);
  }

  lemma RoundSafeIsEnough(q: seq<QueuedMutation>, m: QueuedMutation, st: Store)
    requires RoundSafe(q, m)
    ensures RoundKeeps(q, m, st)
  {
    if q != [] && Matches(q[0], m) {
      assert q == [q[0]] + q[1..];
      RoundWithRemoval(q, m, st);
    } else {
      CommitHarmlessIff(q, m, st);
    }
  }

  /** Whenever the round is not safe, this store shows it: a deletion meets a row, a save meets none. */
  ghost function Revealing(m: QueuedMutation): Store {
    if m.Save? then Store(map[], map[])
    else Store(map[m.uuid := Row(2, 1, false, 0, Sealed(Dek(Svk(0)), m.uuid, 1, ""))], map[])
  }

  lemma RoundSafeIsNeeded(q: seq<QueuedMutation>, m: QueuedMutation)
    requires !RoundSafe(q, m)
    ensures !RoundKeeps(q, m, Revealing(m))
  {
    if q != [] && Matches(q[0], m) {
      assert q == [q[0]] + q[1..];
      RoundWithRemoval(q, m, Revealing(m));
    } else {
      CommitHarmlessIff(q, m, Revealing(m));
    }
  }

  /** Whoever holds `m` from whatever snapshot: a round with it loses nothing on every store exactly
      when the queue as it is deletes the item, still saves it afterwards, or starts with `m`. */
  lemma RoundSafeIff(q: seq<QueuedMutation>, m: QueuedMutation)
    ensures (forall st: Store :: RoundKeeps(q, m, st)) <==> RoundSafe(q, m)
  {
    if RoundSafe(q, m) {
      forall st: Store
        ensures RoundKeeps(q, m, st)
      {
        RoundSafeIsEnough(q, m, st);
      }
    } else {
      RoundSafeIsNeeded(q, m);
    }
  }

  // ------------------------------------------------------------------- any number of flushers

  type Thread = nat

  /** A flush under way: its snapshot, how far it is, and whether it has just committed. */
  datatype Flusher = Flusher(snapshot: seq<QueuedMutation>, at: nat, committed: bool)

  datatype State = State(queue: seq<QueuedMutation>, store: Store, flushers: map<Thread, Flusher>)

  datatype Action =
    | Add(m: QueuedMutation)
    | Begin(thread: Thread)
    | Apply(thread: Thread)
    | Reject(thread: Thread)
    | Remove(thread: Thread)
    | Leave(thread: Thread)

  /** The flusher is about to apply an entry. */
  predicate Applying(s: State, t: Thread) {
    t in s.flushers && !s.flushers[t].committed && s.flushers[t].at < |s.flushers[t].snapshot|
  }

  /** The flusher has committed an entry and is about to look at the head. */
  predicate Removing(s: State, t: Thread) {
    t in s.flushers && s.flushers[t].committed && s.flushers[t].at < |s.flushers[t].snapshot|
  }

  function Entry(s: State, t: Thread): QueuedMutation
    requires t in s.flushers && s.flushers[t].at < |s.flushers[t].snapshot|
  {
    s.flushers[t].snapshot[s.flushers[t].at]
  }

  function Go(s: State, t: Thread, f: Flusher): State {
    s.(flushers := s.flushers[t := f])
  }

  /** A flush ends when its snapshot does, or earlier when it finds the vault locked. */
  function Next(s: State, e: Action): State {
    match e
    case Add(m) => s.(queue := s.queue + [m])
    case Begin(t) => if t in s.flushers then s else Go(s, t, Flusher(s.queue, 0, false))
    case Apply(t) =>
      if !Applying(s, t) then s
      else Go(s, t, s.flushers[t].(committed := true)).(store := Commit(Entry(s, t), s.store))
    case Reject(t) =>
      if !Applying(s, t) then s else Go(s, t, s.flushers[t].(at := s.flushers[t].at + 1))
    case Remove(t) =>
      if !Removing(s, t) then s
      else Go(s, t, s.flushers[t].(at := s.flushers[t].at + 1, committed := false))
             .(queue := PopIfMatching(s.queue, Entry(s, t)))
    case Leave(t) =>
      if t !in s.flushers || s.flushers[t].committed then s else s.(flushers := s.flushers - {t})
  }

  /** A flusher's commit and removal with nothing in between are one round of the flush loop, and so is
      a rejection. */
  lemma RoundIsAFlushStep(s: State, t: Thread, commits: bool)
    requires Applying(s, t)
    ensures var s' := if commits then Next(Next(s, Apply(t)), Remove(t)) else Next(s, Reject(t));
            && Client(s'.queue, s'.store) == FlushStep(Client(s.queue, s.store), Entry(s, t), Turn(commits, [], false))
            && s'.flushers == s.flushers[t := s.flushers[t].(at := s.flushers[t].at + 1)]
  {
    assert s.queue + [] == s.queue;
  }

  ghost function Added(e: Action): seq<QueuedMutation> {
    if e.Add? then [e.m] else []
  }

  /** The step does no harm here: read off the queue and the store before it. */
  ghost predicate Harmless(s: State, e: Action) {
    match e
    case Apply(t) => Applying(s, t) ==> CommitHarmless(s.queue, Entry(s, t), s.store)
    case Remove(t) =>
      Removing(s, t) && s.queue != [] && Matches(s.queue[0], Entry(s, t)) ==> RemovalHarmless(s.queue, s.store)
    case _ => true
  }

  /** What the queue promises is kept by a step exactly when the step is harmless. */
  lemma StepKeepsPromiseIff(s: State, e: Action)
    ensures var s' := Next(s, e);
            SameContents(Replay(s'.queue, s'.store).rows, Replay(s.queue + Added(e), s.store).rows) <==> Harmless(s, e)
  {
    assert s.queue + [] == s.queue;
    if e.Apply? && Applying(s, e.thread) {
      CommitHarmlessIff(s.queue, Entry(s, e.thread), s.store);
    }
    if e.Remove? && Removing(s, e.thread) && s.queue != [] && Matches(s.queue[0], Entry(s, e.thread)) {
      RemovalHarmlessIff(s.queue, s.store);
    }
  }

  function Run(s: State, actions: seq<Action>): State
    decreases |actions|
  {
    if actions == [] then s else Run(Next(s, actions[0]), actions[1..])
  }

  ghost function AllAdded(actions: seq<Action>): seq<QueuedMutation>
    decreases |actions|
  {
    if actions == [] then [] else Added(actions[0]) + AllAdded(actions[1..])
  }

  ghost predicate HarmlessRun(s: State, actions: seq<Action>)
    decreases |actions|
  {
    actions == [] || (Harmless(s, actions[0]) && HarmlessRun(Next(s, actions[0]), actions[1..]))
  }

  /** Any number of flushers in any interleaving: nothing is lost if every step is harmless. */
  lemma {:induction false} HarmlessRunLosesNothing(s: State, actions: seq<Action>)
    requires HarmlessRun(s, actions)
    ensures var end := Run(s, actions);
            SameContents(Replay(end.queue, end.store).rows, Replay(s.queue + AllAdded(actions), s.store).rows)
    decreases |actions|
  {
    if actions == [] {
      assert s.queue + [] == s.queue;
    } else {
      var s', now, later := Next(s, actions[0]), Added(actions[0]), AllAdded(actions[1..]);
      StepKeepsPromiseIff(s, actions[0]);
      HarmlessRunLosesNothing(s', actions[1..]);
      ExtendReplay(s'.queue, s'.store, s.queue + now, s.store, later);
      assert s.queue + (now + later) == (s.queue + now) + later;
    }
  }

  lemma {:induction false} RunAppend(s: State, a: seq<Action>, b: seq<Action>)
    ensures Run(s, a + b) == Run(Run(s, a), b) && AllAdded(a + b) == AllAdded(a) + AllAdded(b)
    decreases |a|
  {
    if a == [] {
      assert a + b == b;
    } else {
      assert (a + b)[0] == a[0] && (a + b)[1..] == a[1..] + b;
      RunAppend(Next(s, a[0]), a[1..], b);
    }
  }

  /** One harmful step does lose something, unless a later addition or a second one makes up for it. */
  lemma OneHarmfulStepLoses(s: State, before: seq<Action>, e: Action, after: seq<Action>)
    requires HarmlessRun(s, before) && !Harmless(Run(s, before), e)
    requires HarmlessRun(Next(Run(s, before), e), after) && AllAdded(after) == []
    ensures var end := Run(s, before + ([e] + after));
            !SameContents(Replay(end.queue, end.store).rows,
                          Replay(s.queue + AllAdded(before + ([e] + after)), s.store).rows)
  {
    var s1 := Run(s, before);
    var s2 := Next(s1, e);
    var s3 := Run(s2, after);
    RunAppend(s, before, [e] + after);
    assert ([e] + after)[1..] == after && AllAdded([e] + after) == [] by {
      assert !e.Add?;
    }
    assert s.queue + (AllAdded(before) + []) == s.queue + AllAdded(before);
    assert s1.queue + [] == s1.queue && s2.queue + [] == s2.queue;
    HarmlessRunLosesNothing(s, before);
    StepKeepsPromiseIff(s1, e);
    HarmlessRunLosesNothing(s2, after);
    NotSameThrough(Replay(s.queue + AllAdded(before), s.store).rows, Replay(s1.queue, s1.store).rows,
                   Replay(s2.queue, s2.store).rows, Replay(s3.queue, s3.store).rows);
  }

  lemma NotSameThrough(a: Rows, b: Rows, c: Rows, d: Rows)
    requires SameContents(b, a) && !SameContents(c, b) && SameContents(d, c)
    ensures !SameContents(d, a)
  {
    if SameContents(d, a) {
      SameContentsSymmetric(d, c);
      SameContentsSymmetric(b, a);
      SameContentsTransitive(c, d, a);
      SameContentsTransitive(c, a, b);
    }
  }

  // ------------------------------------------------------------------- one flusher at a time

  /** The only flusher is `t`; the queue starts with what its snapshot has from `j` on, and what it has
      just committed is in the store. */
  ghost predicate Aligned(s: State, t: Thread, j: nat) {
    && t in s.flushers && s.flushers.Keys == {t}
    && var f := s.flushers[t];
       && j <= f.at <= |f.snapshot| && |f.snapshot| - j <= |s.queue|
       && s.queue[..|f.snapshot| - j] == f.snapshot[j..]
       && (f.committed ==> f.at < |f.snapshot| && Reflects(s.store, f.snapshot[f.at]))
  }

  ghost predicate AtMostOne(s: State) {
    s.flushers == map[] || exists t, j: nat :: Aligned(s, t, j)
  }

  /** A flush begins only when no other is under way. */
  ghost predicate OneAtATime(s: State, actions: seq<Action>)
    decreases |actions|
  {
    actions == [] ||
    ((actions[0].Begin? ==> s.flushers == map[]) && OneAtATime(Next(s, actions[0]), actions[1..]))
  }

  lemma StillQueued(s: State, t: Thread, j: nat)
    requires Aligned(s, t, j) && s.flushers[t].at < |s.flushers[t].snapshot|
    ensures Entry(s, t) in s.queue && s.queue[0] == s.flushers[t].snapshot[j]
    ensures j < s.flushers[t].at ==> Entry(s, t) in s.queue[1..]
  {
    var f := s.flushers[t];
    var kept := s.queue[..|f.snapshot| - j];
    assert kept[f.at - j] == f.snapshot[f.at] && kept[0] == f.snapshot[j];
    assert s.queue[f.at - j] == f.snapshot[f.at];
    if j < f.at {
      assert s.queue[1..][f.at - j - 1] == f.snapshot[f.at];
    }
  }

  lemma AloneIsHarmless(s: State, t: Thread, j: nat, e: Action)
    requires Aligned(s, t, j)
    ensures Harmless(s, e)
  {
    if (e.Apply? && Applying(s, e.thread)) || (e.Remove? && Removing(s, e.thread)) {
      assert e.thread == t;
      StillQueued(s, t, j);
    }
  }

  lemma CommittedIsReflected(m: QueuedMutation, st: Store)
    ensures Reflects(Commit(m, st), m)
  {
  }

  lemma AloneStaysAligned(s: State, t: Thread, j: nat, e: Action)
    requires Aligned(s, t, j) && !e.Begin? && !e.Leave?
    ensures Aligned(Next(s, e), t, j) || Aligned(Next(s, e), t, j + 1)
  {
    var f, s' := s.flushers[t], Next(s, e);
    var n := |f.snapshot| - j;
    if e.Add? {
      assert s'.queue[..n] == s.queue[..n];
    } else if e.Apply? && Applying(s, e.thread) {
      CommittedIsReflected(Entry(s, t), s.store);
    } else if e.Remove? && Removing(s, e.thread) {
      StillQueued(s, t, j);
      if Matches(s.queue[0], Entry(s, t)) {
        assert s.queue[1..][..n - 1] == s.queue[..n][1..] && f.snapshot[j..][1..] == f.snapshot[j + 1..];
      }
    }
  }

  lemma AtMostOneStays(s: State, e: Action)
    requires AtMostOne(s) && (e.Begin? ==> s.flushers == map[])
    ensures Harmless(s, e) && AtMostOne(Next(s, e))
  {
    if s.flushers == map[] {
      if e.Begin? {
        assert s.queue[..|s.queue| - 0] == s.queue[0..];
        assert Aligned(Next(s, e), e.thread, 0);
      }
    } else {
      var t, j: nat :| Aligned(s, t, j);
      AloneIsHarmless(s, t, j, e);
      if e.Leave? {
        assert Next(s, e) == s || Next(s, e).flushers == map[];
      } else {
        AloneStaysAligned(s, t, j, e);
      }
    }
  }

  /** A single flusher never does harm, whatever commits, is rejected, is added or stops early. */
  lemma {:induction false} OneFlusherIsHarmless(s: State, actions: seq<Action>)
    requires AtMostOne(s) && OneAtATime(s, actions)
    ensures HarmlessRun(s, actions)
    decreases |actions|
  {
    if actions != [] {
      AtMostOneStays(s, actions[0]);
      OneFlusherIsHarmless(Next(s, actions[0]), actions[1..]);
    }
  }

  /** So a client that flushes one at a time loses nothing, in every interleaving with additions. */
  lemma OneFlusherLosesNothing(queue: seq<QueuedMutation>, st: Store, actions: seq<Action>)
    requires OneAtATime(State(queue, st, map[]), actions)
    ensures var end := Run(State(queue, st, map[]), actions);
            SameContents(Replay(end.queue, end.store).rows, Replay(queue + AllAdded(actions), st).rows)
  {
    var s := State(queue, st, map[]);
    OneFlusherIsHarmless(s, actions);
    HarmlessRunLosesNothing(s, actions);
  }

  // ------------------------------------------------------------------- two flushers

  /** Two flushes from the same snapshot; the second, late, removes what was added in between. */
  function Overlap(newer: QueuedMutation): seq<Action> {
    [Begin(0), Begin(1), Apply(0), Remove(0), Add(newer), Apply(1), Remove(1)]
  }

  /** Such an overlap loses the newer of two saves. */
  lemma TwoFlushersLoseASave(st: Store, older: QueuedMutation, newer: QueuedMutation)
    requires older.Save? && newer.Save? && older.uuid == newer.uuid && older.payload != newer.payload
    ensures var end := Run(State([older], st, map[]), Overlap(newer));
            end.queue == [] && !SameContents(end.store.rows, Replay([older, newer], st).rows)
  {
    var one, two := Flusher([older], 0, false), Flusher([older], 1, false);
    var st1 := Commit(older, st);
    var s0 := State([older], st, map[]);
    var s2 := Next(Next(s0, Begin(0)), Begin(1));
    assert s2 == State([older], st, map[0 := one, 1 := one]);
    var s4 := Next(Next(s2, Apply(0)), Remove(0));
    assert s4 == State([], st1, map[0 := two, 1 := one]);
    var s5 := Next(s4, Add(newer));
    assert s5 == State([newer], st1, map[0 := two, 1 := one]);
    var s7 := Next(Next(s5, Apply(1)), Remove(1));
    assert s7 == State([], Commit(older, st1), map[0 := two, 1 := two]);
    RunOverlap(s0, newer);
    assert [older, newer][1..] == [newer] && [newer][1..] == [];
    assert Replay([newer], st1) == Commit(newer, st1);
    var u := older.uuid;
    assert ContentsAt(s7.store.rows, u) != ContentsAt(Commit(newer, st1).rows, u);
  }

  lemma RunOverlap(s: State, newer: QueuedMutation)
    ensures Run(s, Overlap(newer))
         == Next(Next(Next(Next(Next(Next(Next(s, Begin(0)), Begin(1)), Apply(0)), Remove(0)), Add(newer)), Apply(1)), Remove(1))
  {
    var a := Overlap(newer);
    assert a == [Begin(0), Begin(1), Apply(0)] + [Remove(0), Add(newer), Apply(1), Remove(1)];
    RunAppend(s, [Begin(0), Begin(1), Apply(0)], [Remove(0), Add(newer), Apply(1), Remove(1)]);
    RunThree(s, Begin(0), Begin(1), Apply(0));
    var t := Run(s, [Begin(0), Begin(1), Apply(0)]);
    assert [Remove(0), Add(newer), Apply(1), Remove(1)] == [Remove(0), Add(newer), Apply(1)] + [Remove(1)];
    RunAppend(t, [Remove(0), Add(newer), Apply(1)], [Remove(1)]);
    RunThree(t, Remove(0), Add(newer), Apply(1));
    var r := Run(t, [Remove(0), Add(newer), Apply(1)]);
    assert [Remove(1)][1..] == [] && Run(r, [Remove(1)]) == Run(Next(r, Remove(1)), []);
  }

  lemma RunThree(s: State, a: Action, b: Action, c: Action)
    ensures Run(s, [a, b, c]) == Next(Next(Next(s, a), b), c)
  {
    assert [a, b, c][1..] == [b, c] && [b, c][1..] == [c] && [c][1..] == [];
    assert Run(Next(Next(s, a), b), [c]) == Next(Next(Next(s, a), b), c);
  }
}
