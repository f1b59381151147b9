/**
 When the replay promise extends to the whole store.  A row's creation time and the
 recorded target of a deletion depend on the order of the commits, so a flush that
 commits an entry out of turn may leave others behind than the queue would have.
 */
module OfflineStore {
  import opened Common
  import opened Crypto
  import opened LocalDb
  import opened Offline

  ghost function PendingAt(st: Store, u: Uuid): Option<PendingDelete> {
    if u in st.pending then Some(st.pending[u]) else None
  }

  // ------------------------------------------------------------------- a flush in order

  /** In the part of the flush that runs, no commit follows a rejection. */
  ghost predicate Orderly(length: nat, i: nat, turns: nat -> Turn)
    requires i <= length
  {
    forall a: nat, b: nat | i <= a < b < StopsAt(length, i, turns) && turns(b).commits :: turns(a).commits
  }

  /** Replaying what is left on the store as it is gives the very store that replaying everything
      on the store as it was would have given. */
  ghost predicate KeepsStore(c: Client, turns: nat -> Turn) {
    var d := Flush(c, turns).0;
    Replay(d.queue, d.store) == Replay(c.queue + ArrivedFrom(c.queue, 0, turns), c.store)
  }

  lemma {:induction false} OnlyRejections(c: Client, snapshot: seq<QueuedMutation>, i: nat, turns: nat -> Turn)
    requires i <= |snapshot| && forall k: nat | i <= k < StopsAt(|snapshot|, i, turns) :: !turns(k).commits
    ensures FlushFrom(c, snapshot, i, turns).0 == Client(c.queue + ArrivedFrom(snapshot, i, turns), c.store)
    decreases |snapshot| - i
  {
    if i == |snapshot| {
      assert c.queue + [] == c.queue;
    } else {
      assert !turns(i).commits;
      var d := FlushStep(c, snapshot[i], turns(i));
      if turns(i).lockedAfter {
        assert turns(i).arrivals + [] == turns(i).arrivals;
      } else {
        OnlyRejections(d, snapshot, i + 1, turns);
        var later := ArrivedFrom(snapshot, i + 1, turns);
        assert (c.queue + turns(i).arrivals) + later == c.queue + (turns(i).arrivals + later);
      }
    }
  }

  /** One commit in turn: the head is the entry itself. */
  lemma CommitInTurn(c: Client, snapshot: seq<QueuedMutation>, extra: seq<QueuedMutation>, i: nat, t: Turn, later: seq<QueuedMutation>)
    requires i < |snapshot| && c.queue == snapshot[i..] + extra && t.commits
    ensures var d := FlushStep(c, snapshot[i], t);
            && d.queue == snapshot[i + 1..] + (extra + t.arrivals)
            && Replay(d.queue + later, d.store) == Replay(c.queue + (t.arrivals + later), c.store)
  {
    var d := FlushStep(c, snapshot[i], t);
    var q := c.queue + t.arrivals;
    assert q[0] == snapshot[i] && q[1..] == snapshot[i + 1..] + (extra + t.arrivals);
    var all := c.queue + (t.arrivals + later);
    assert all[0] == snapshot[i] && all[1..] == d.queue + later;
  }

  lemma {:induction false} OrderlyFrom(c: Client, snapshot: seq<QueuedMutation>, extra: seq<QueuedMutation>, i: nat, turns: nat -> Turn)
    requires i <= |snapshot| && c.queue == snapshot[i..] + extra && Orderly(|snapshot|, i, turns)
    ensures var d := FlushFrom(c, snapshot, i, turns).0;
            Replay(d.queue, d.store) == Replay(c.queue + ArrivedFrom(snapshot, i, turns), c.store)
    decreases |snapshot| - i
  {
    if i == |snapshot| {
      assert c.queue + [] == c.queue;
    } else if turns(i).commits {
      var d := FlushStep(c, snapshot[i], turns(i));
      if turns(i).lockedAfter {
        CommitInTurn(c, snapshot, extra, i, turns(i), []);
        assert d.queue + [] == d.queue;
      } else {
        CommitInTurn(c, snapshot, extra, i, turns(i), ArrivedFrom(snapshot, i + 1, turns));
        OrderlyFrom(d, snapshot, extra + turns(i).arrivals, i + 1, turns);
      }
    } else {
      forall k: nat | i <= k < StopsAt(|snapshot|, i, turns)
        ensures !turns(k).commits
      {
      }
      OnlyRejections(c, snapshot, i, turns);
    }
  }

  /** A flush in which no commit follows a rejection keeps the whole store. */
  lemma OrderlyFlushKeepsStore(c: Client, turns: nat -> Turn)
    requires Orderly(|c.queue|, 0, turns)
    ensures KeepsStore(c, turns)
  {
    assert c.queue == c.queue[0..] + [];
    OrderlyFrom(c, c.queue, [], 0, turns);
  }

  /** Every flush of the run is orderly. */
  ghost predicate OrderlyRun(c: Client, events: seq<Event>)
    decreases |events|
  {
    events == [] ||
    (&& (events[0].FlushQueue? ==> Orderly(|c.queue|, 0, events[0].turns))
     && OrderlyRun(Step(c, events[0]), events[1..]))
  }

  lemma OrderlyStepKeepsStore(c: Client, e: Event)
    requires e.FlushQueue? ==> Orderly(|c.queue|, 0, e.turns)
    ensures var d := Step(c, e); Replay(d.queue, d.store) == Replay(c.queue + Queued(c, e), c.store)
  {
    if e.FlushQueue? {
      OrderlyFlushKeepsStore(c, e.turns);
    }
  }

  lemma JoinReplays(end: Client, d: Client, c: Client, now: seq<QueuedMutation>, later: seq<QueuedMutation>)
    requires Replay(end.queue, end.store) == Replay(d.queue + later, d.store)
    requires Replay(d.queue, d.store) == Replay(c.queue + now, c.store)
    ensures Replay(end.queue, end.store) == Replay(c.queue + (now + later), c.store)
  {
    ReplayAppend(d.queue, later, d.store);
    ReplayAppend(c.queue + now, later, c.store);
    assert c.queue + (now + later) == (c.queue + now) + later;
  }

  /** Over any run of orderly flushes and additions the whole store is kept, creation times and
      recorded tombstones included. */
  lemma {:induction false} OrderlyRunKeepsStore(c: Client, events: seq<Event>)
    requires OrderlyRun(c, events)
    ensures var d := Run(c, events);
            Replay(d.queue, d.store) == Replay(c.queue + AllQueued(c, events), c.store)
    decreases |events|
  {
    if events == [] {
      assert c.queue + [] == c.queue;
    } else {
      var d, now, later := Step(c, events[0]), Queued(c, events[0]), AllQueued(Step(c, events[0]), events[1..]);
      OrderlyRunKeepsStore(d, events[1..]);
      OrderlyStepKeepsStore(c, events[0]);
      JoinReplays(Run(c, events), d, c, now, later);
    }
  }

  // ------------------------------------------------------------------- the order is needed

  function MaxUuid(q: seq<QueuedMutation>): (n: Uuid)
    ensures forall m | m in q :: m.uuid <= n
    decreases |q|
  {
    if q == [] then 0
    else
      var rest := MaxUuid(q[1..]);
      if q[0].uuid > rest then q[0].uuid else rest
  }

  /** A uuid that nothing arriving in the first `n` turns mentions. */
  function Unmentioned(turns: nat -> Turn, n: nat): (u: Uuid)
    ensures forall i: nat | i < n :: forall m | m in turns(i).arrivals :: m.uuid < u
  {
    if n == 0 then 0
    else
      var before, here := Unmentioned(turns, n - 1), MaxUuid(turns(n - 1).arrivals);
      if here < before then before else here + 1
  }

  lemma {:induction false} ArrivalsAreFromTurns(snapshot: seq<QueuedMutation>, i: nat, turns: nat -> Turn, m: QueuedMutation)
    requires i <= |snapshot| && m in ArrivedFrom(snapshot, i, turns)
    ensures exists k: nat :: k < |snapshot| && m in turns(k).arrivals
    decreases |snapshot| - i
  {
    if m !in turns(i).arrivals {
      ArrivalsAreFromTurns(snapshot, i + 1, turns, m);
    }
  }

  /** A queue that deletes `u` at `a`, saves it at `b`, and says nothing else about it. */
  function Crossing(n: nat, a: nat, b: nat, u: Uuid): seq<QueuedMutation> {
    seq(n, i => if i == a then Delete(u)
                else if i == b then Save(u, 1, false, 0, Sealed(Dek(Svk(0)), u, 1, ""))
                else Delete(u + 1))
  }

  lemma {:induction false} NoDeleteNoTombstone(q: seq<QueuedMutation>, st: Store, u: Uuid)
    requires Delete(u) !in q
    ensures PendingAt(Replay(q, st), u) == PendingAt(st, u)
    decreases |q|
  {
    if q != [] {
      assert q[0] in q && forall m | m in q[1..] :: m in q;
      NoDeleteNoTombstone(q[1..], Commit(q[0], st), u);
    }
  }

  /** Deleting what is not there records nothing. */
  lemma {:induction false} DeleteBeforeSaveRecordsNothing(q: seq<QueuedMutation>, st: Store, u: Uuid)
    requires u !in st.rows && forall i, j | 0 <= i < j < |q| && q[i].Save? && q[i].uuid == u :: q[j] != Delete(u)
    ensures PendingAt(Replay(q, st), u) == PendingAt(st, u)
    decreases |q|
  {
    if q != [] {
      if q[0].Save? && q[0].uuid == u {
        assert Delete(u) !in q[1..];
        NoDeleteNoTombstone(q[1..], Commit(q[0], st), u);
      } else {
        DeleteBeforeSaveRecordsNothing(q[1..], Commit(q[0], st), u);
      }
    }
  }

  lemma {:induction false} TombstonesStay(q: seq<QueuedMutation>, st: Store, u: Uuid)
    requires u in st.pending
    ensures u in Replay(q, st).pending
    decreases |q|
  {
    if q != [] {
      TombstonesStay(q[1..], Commit(q[0], st), u);
    }
  }

  lemma {:induction false} DeleteOfARowIsRecorded(q: seq<QueuedMutation>, st: Store, u: Uuid)
    requires u in st.rows && Delete(u) in q
    ensures u in Replay(q, st).pending
    decreases |q|
  {
    if q[0] == Delete(u) {
      TombstonesStay(q[1..], Commit(q[0], st), u);
    } else {
      assert q == [q[0]] + q[1..];
      DeleteOfARowIsRecorded(q[1..], Commit(q[0], st), u);
    }
  }

  /** A row saved in this flush is there afterwards if no deletion of it committed. */
  lemma {:induction false} SavedRowStays(c: Client, snapshot: seq<QueuedMutation>, i: nat, turns: nat -> Turn, u: Uuid, b: nat)
    requires i <= |snapshot| && b < |snapshot| && snapshot[b].Save? && snapshot[b].uuid == u
    requires u in c.store.rows || (i <= b < StopsAt(|snapshot|, i, turns) && turns(b).commits)
    requires forall k | i <= k < |snapshot| && snapshot[k] == Delete(u) :: !turns(k).commits
    ensures u in FlushFrom(c, snapshot, i, turns).0.store.rows
    decreases |snapshot| - i
  {
    if i < |snapshot| {
      var d := FlushStep(c, snapshot[i], turns(i));
      if !turns(i).lockedAfter {
        SavedRowStays(d, snapshot, i + 1, turns, u, b);
      }
    }
  }

  /** An entry stays queued if no entry of its kind and uuid at or after it commits. */
  lemma UncoveredStaysQueued(c: Client, turns: nat -> Turn, a: nat)
    requires a < |c.queue|
    requires forall i: nat | a <= i < |c.queue| && Matches(c.queue[a], c.queue[i]) :: !turns(i).commits
    ensures c.queue[a] in Flush(c, turns).0.queue
  {
    FlushRemovesOnlyWhatIsSafe(c, turns);
    var k := HeadAfter(c.queue, 0, 0, turns);
    assert a < k ==> CoveredBy(c.queue, a, 0, StopsAt(|c.queue|, 0, turns), turns);
    assert c.queue[k..][a - k] == c.queue[a];
  }

  /** A rejected delete, a later committed save: the retried delete records a row nobody deleted. */
  lemma CrossingBreaks(n: nat, turns: nat -> Turn, a: nat, b: nat)
    requires a < b < StopsAt(n, 0, turns) && !turns(a).commits && turns(b).commits
    ensures var c := Client(Crossing(n, a, b, Unmentioned(turns, n)), Store(map[], map[])); !KeepsStore(c, turns)
  {
    var u := Unmentioned(turns, n);
    var q := Crossing(n, a, b, u);
    var c := Client(q, Store(map[], map[]));
    var d, arrived := Flush(c, turns).0, ArrivedFrom(q, 0, turns);
    UncoveredStaysQueued(c, turns, a);
    SavedRowStays(c, q, 0, turns, u, b);
    DeleteOfARowIsRecorded(d.queue, d.store, u);
    forall i, j | 0 <= i < j < |q + arrived| && (q + arrived)[i].Save? && (q + arrived)[i].uuid == u
      ensures (q + arrived)[j] != Delete(u)
    {
      if j >= n {
        var m := arrived[j - n];
        ArrivalsAreFromTurns(q, 0, turns, m);
      }
    }
    DeleteBeforeSaveRecordsNothing(q + arrived, c.store, u);
  }

  /** The exact pattern of outcomes: with these turns every queue of that length and every store
      keeps the whole store if and only if no commit follows a rejection. */
  lemma KeepsStoreIffOrderly(n: nat, turns: nat -> Turn)
    ensures (forall c: Client | |c.queue| == n :: KeepsStore(c, turns)) <==> Orderly(n, 0, turns)
  {
    if Orderly(n, 0, turns) {
      forall c: Client | |c.queue| == n
        ensures KeepsStore(c, turns)
      {
        OrderlyFlushKeepsStore(c, turns);
      }
    } else {
      var a: nat, b: nat :| 0 <= a < b < StopsAt(n, 0, turns) && turns(b).commits && !turns(a).commits;
      CrossingBreaks(n, turns, a, b);
    }
  }

  // ------------------------------------------------------------------- one entry out of turn

  ghost predicate FirstSave(q: seq<QueuedMutation>, u: Uuid, m: QueuedMutation) {
    exists i :: 0 <= i < |q| && q[i] == m && m.Save? && m.uuid == u
                && forall k | 0 <= k < i :: q[k].uuid != u
  }

  /** Without deletes of `u`, the creation time is the existing row's, else the first save's. */
  lemma {:induction false} ReplayedCreation(q: seq<QueuedMutation>, u: Uuid, first: QueuedMutation, st: Store)
    requires Delete(u) !in q && FirstSave(q, u, first)
    ensures u in Replay(q, st).rows
    ensures Replay(q, st).rows[u].createdAt
         == if u in st.rows then st.rows[u].createdAt else first.createdAt
    decreases |q|
  {
    assert q == [q[0]] + q[1..];
    var st' := Commit(q[0], st);
    var i :| 0 <= i < |q| && q[i] == first && forall k | 0 <= k < i :: q[k].uuid != u;
    if i > 0 {
      assert q[1..][i - 1] == first;
      assert forall k | 0 <= k < i - 1 :: q[1..][k] == q[k + 1];
      ReplayedCreation(q[1..], u, first, st');
    } else {
      CreationIsKept(q[1..], u, st');
    }
  }

  lemma {:induction false} CreationIsKept(q: seq<QueuedMutation>, u: Uuid, st: Store)
    requires Delete(u) !in q && u in st.rows
    ensures u in Replay(q, st).rows && Replay(q, st).rows[u].createdAt == st.rows[u].createdAt
    decreases |q|
  {
    if q != [] {
      assert q == [q[0]] + q[1..];
      CreationIsKept(q[1..], u, Commit(q[0], st));
    }
  }

  /** The creation time survives an out-of-turn save exactly when the row already existed or
      the first queued save of the item carries the same time. */
  lemma CreationSurvivesIff(q: seq<QueuedMutation>, m: QueuedMutation, first: QueuedMutation, st: Store)
    requires m in q && m.Save? && Delete(m.uuid) !in q && FirstSave(q, m.uuid, first)
    ensures var a, b := Replay(q, Commit(m, st)).rows, Replay(q, st).rows;
            && m.uuid in a && m.uuid in b
            && (a[m.uuid] == b[m.uuid] <==> m.uuid in st.rows || first.createdAt == m.createdAt)
  {
    ReplayedCreation(q, m.uuid, first, Commit(m, st));
    ReplayedCreation(q, m.uuid, first, st);
    CommitAheadOfTurn(q, m, st);
    var a, b := Replay(q, Commit(m, st)).rows, Replay(q, st).rows;
    assert a[m.uuid].(createdAt := 0) == b[m.uuid].(createdAt := 0);
  }

  /** Some deletion of `u` is preceded by a save of it. */
  ghost predicate SavesThenDeletes(q: seq<QueuedMutation>, u: Uuid) {
    exists i, j :: 0 <= i < j < |q| && q[i].Save? && q[i].uuid == u && q[j] == Delete(u)
  }

  ghost function FirstDelete(q: seq<QueuedMutation>, u: Uuid): (k: nat)
    requires Delete(u) in q
    ensures k < |q| && q[k] == Delete(u) && Delete(u) !in q[..k]
    decreases |q|
  {
    if q[0] == Delete(u) then 0
    else
      assert q == [q[0]] + q[1..];
      var k := 1 + FirstDelete(q[1..], u);
      assert q[..k] == [q[0]] + q[1..][..k - 1];
      k
  }

  /** The stores differ in nothing but what they say of `u`. */
  ghost predicate DifferAt(a: Store, b: Store, u: Uuid) {
    forall v | v != u :: RowAt(a.rows, v) == RowAt(b.rows, v) && PendingAt(a, v) == PendingAt(b, v)
  }

  lemma CommitDiffersAt(m: QueuedMutation, a: Store, b: Store, u: Uuid)
    requires DifferAt(a, b, u)
    ensures DifferAt(Commit(m, a), Commit(m, b), u)
  {
    var x, y := Commit(m, a), Commit(m, b);
    forall v | v != u
      ensures RowAt(x.rows, v) == RowAt(y.rows, v) && PendingAt(x, v) == PendingAt(y, v)
    {
      assert RowAt(a.rows, v) == RowAt(b.rows, v) && PendingAt(a, v) == PendingAt(b, v);
    }
  }

  /** Up to the first deletion of `u`: what is recorded of it stands, and a save fixes the generation. */
  lemma {:induction false} BeforeFirstDelete(pre: seq<QueuedMutation>, a: Store, b: Store, u: Uuid)
    requires Delete(u) !in pre && DifferAt(a, b, u)
    ensures var x, y := Replay(pre, a), Replay(pre, b);
            && DifferAt(x, y, u)
            && PendingAt(x, u) == PendingAt(a, u) && PendingAt(y, u) == PendingAt(b, u)
            && VersionOrOne(x.rows, u) == VersionOrOne(a.rows, u) && VersionOrOne(y.rows, u) == VersionOrOne(b.rows, u)
            && (Saves(pre, u) ==> u in x.rows && u in y.rows && x.rows[u].gen == y.rows[u].gen)
            && (!Saves(pre, u) ==> RowAt(x.rows, u) == RowAt(a.rows, u) && RowAt(y.rows, u) == RowAt(b.rows, u))
    decreases |pre|
  {
    if pre != [] {
      var m, rest := pre[0], pre[1..];
      assert pre == [m] + rest;
      CommitDiffersAt(m, a, b, u);
      BeforeFirstDelete(rest, Commit(m, a), Commit(m, b), u);
      assert Saves(pre, u) <==> (m.Save? && m.uuid == u) || Saves(rest, u);
    }
  }

  /** From there on the rows are the same, and a difference in what is recorded of `u` lasts until
      a deletion that finds the row. */
  lemma {:induction false} AfterFirstDelete(post: seq<QueuedMutation>, x: Store, y: Store, u: Uuid)
    requires x.rows == y.rows && DifferAt(x, y, u)
    ensures Replay(post, x).rows == Replay(post, y).rows
    ensures Replay(post, x).pending == Replay(post, y).pending
       <==> PendingAt(x, u) == PendingAt(y, u) || (u in x.rows && Delete(u) in post) || SavesThenDeletes(post, u)
    decreases |post|
  {
    if post == [] {
      SamePendingIff(x, y, u);
    } else {
      var m, rest := post[0], post[1..];
      assert post == [m] + rest;
      CommitDiffersAt(m, x, y, u);
      AfterFirstDelete(rest, Commit(m, x), Commit(m, y), u);
      LaterDelete(m, rest, u);
    }
  }

  lemma SamePendingIff(x: Store, y: Store, u: Uuid)
    requires DifferAt(x, y, u)
    ensures x.pending == y.pending <==> PendingAt(x, u) == PendingAt(y, u)
  {
    if PendingAt(x, u) == PendingAt(y, u) {
      assert forall v :: PendingAt(x, v) == PendingAt(y, v);
      assert forall v | v in x.pending :: PendingAt(x, v) == PendingAt(y, v);
      assert forall v | v in y.pending :: PendingAt(x, v) == PendingAt(y, v);
    }
  }

  lemma LaterDelete(m: QueuedMutation, rest: seq<QueuedMutation>, u: Uuid)
    ensures SavesThenDeletes([m] + rest, u)
       <==> SavesThenDeletes(rest, u) || (m.Save? && m.uuid == u && Delete(u) in rest)
  {
    var q := [m] + rest;
    if SavesThenDeletes(rest, u) {
      var i, j :| 0 <= i < j < |rest| && rest[i].Save? && rest[i].uuid == u && rest[j] == Delete(u);
      assert q[i + 1] == rest[i] && q[j + 1] == rest[j];
    }
    if m.Save? && m.uuid == u && Delete(u) in rest {
      var j :| 0 <= j < |rest| && rest[j] == Delete(u);
      assert q[0] == m && q[j + 1] == rest[j];
    }
    if SavesThenDeletes(q, u) {
      var i, j :| 0 <= i < j < |q| && q[i].Save? && q[i].uuid == u && q[j] == Delete(u);
      assert q[j] == rest[j - 1];
      if i > 0 {
        assert q[i] == rest[i - 1];
      }
    }
  }

  /** What a caller can read off the queue and the store before `m`, an entry of the queue, commits
      out of turn: the first deletion of its item records the same either way, or a later one
      replaces what it recorded. */
  ghost predicate TombstoneSafe(q: seq<QueuedMutation>, m: QueuedMutation, st: Store) {
    var u := m.uuid;
    Delete(u) in q ==>
      var k := FirstDelete(q, u);
      SavesThenDeletes(q[k + 1..], u) || RecordsAlike(q[..k], m, st)
  }

  /** With and without `m` ahead of it, a deletion after `pre` leaves the same target on record. */
  ghost predicate RecordsAlike(pre: seq<QueuedMutation>, m: QueuedMutation, st: Store) {
    var u := m.uuid;
    if m.Delete? then u !in st.rows || !Saves(pre, u) || st.rows[u].version == 1
    else if Saves(pre, u) then true
    else if u in st.rows then st.rows[u].gen == m.gen
    else PendingAt(st, u) == Some(PendingDelete(1, m.gen))
  }

  lemma FirstDeleteRecords(pre: seq<QueuedMutation>, m: QueuedMutation, st: Store)
    requires Delete(m.uuid) !in pre
    ensures var u := m.uuid;
            var x, y := Commit(Delete(u), Replay(pre, Commit(m, st))), Commit(Delete(u), Replay(pre, st));
            && x.rows == y.rows && u !in x.rows && DifferAt(x, y, u)
            && (PendingAt(x, u) == PendingAt(y, u) <==> RecordsAlike(pre, m, st))
  {
    var u, a := m.uuid, Commit(m, st);
    BeforeFirstDelete(pre, a, st, u);
    AtFirstDelete(Replay(pre, a), Replay(pre, st), u);
  }

  lemma ReplayAround(pre: seq<QueuedMutation>, m: QueuedMutation, post: seq<QueuedMutation>, st: Store)
    ensures Replay(pre + ([m] + post), st) == Replay(post, Commit(m, Replay(pre, st)))
  {
    ReplayAppend(pre, [m] + post, st);
    assert ([m] + post)[1..] == post;
  }

  lemma SplitAtFirstDelete(q: seq<QueuedMutation>, m: QueuedMutation, st: Store)
    requires m in q && Delete(m.uuid) in q
    ensures var a := Replay(q, Commit(m, st));
            var b := Replay(q, st);
            a.rows == b.rows && (a.pending == b.pending <==> TombstoneSafe(q, m, st))
  {
    var u := m.uuid;
    var k := FirstDelete(q, u);
    var pre, post := q[..k], q[k + 1..];
    var a, b := Commit(m, st), st;
    assert q == pre + ([Delete(u)] + post);
    ReplayAround(pre, Delete(u), post, a);
    ReplayAround(pre, Delete(u), post, b);
    FirstDeleteRecords(pre, m, st);
    AfterFirstDelete(post, Commit(Delete(u), Replay(pre, a)), Commit(Delete(u), Replay(pre, b)), u);
  }

  lemma AtFirstDelete(x: Store, y: Store, u: Uuid)
    requires DifferAt(x, y, u)
    ensures var x', y' := Commit(Delete(u), x), Commit(Delete(u), y);
            && x'.rows == y'.rows && u !in x'.rows && DifferAt(x', y', u)
  {
    CommitDiffersAt(Delete(u), x, y, u);
    SameRowsIff(Commit(Delete(u), x), Commit(Delete(u), y), u);
  }

  /** The recorded tombstones survive one commit out of turn exactly when it is safe in this sense. */
  lemma TombstonesSurviveIff(q: seq<QueuedMutation>, m: QueuedMutation, st: Store)
    requires m in q
    ensures Replay(q, Commit(m, st)).pending == Replay(q, st).pending <==> TombstoneSafe(q, m, st)
  {
    var u := m.uuid;
    if Delete(u) in q {
      SplitAtFirstDelete(q, m, st);
    } else {
      var a := Commit(m, st);
      BeforeFirstDelete(q, a, st, u);
      SamePendingIff(Replay(q, a), Replay(q, st), u);
    }
  }

  /** The whole store survives one commit out of turn exactly when the tombstones do and, if the
      queue does not delete the item, its creation time does. */
  lemma StoreSurvivesIff(q: seq<QueuedMutation>, m: QueuedMutation, first: QueuedMutation, st: Store)
    requires m in q && (Delete(m.uuid) !in q ==> FirstSave(q, m.uuid, first))
    ensures Replay(q, Commit(m, st)) == Replay(q, st)
       <==> TombstoneSafe(q, m, st)
            && (Delete(m.uuid) in q || m.uuid in st.rows || first.createdAt == m.createdAt)
  {
    TombstonesSurviveIff(q, m, st);
    var u := m.uuid;
    if Delete(u) in q {
      SplitAtFirstDelete(q, m, st);
    } else {
      CreationSurvivesIff(q, m, first, st);
      var a := Commit(m, st);
      BeforeFirstDelete(q, a, st, u);
      SameRowsIff(Replay(q, a), Replay(q, st), u);
    }
  }

  lemma SameRowsIff(x: Store, y: Store, u: Uuid)
    requires DifferAt(x, y, u)
    ensures x.rows == y.rows <==> RowAt(x.rows, u) == RowAt(y.rows, u)
  {
    if RowAt(x.rows, u) == RowAt(y.rows, u) {
      assert forall v :: RowAt(x.rows, v) == RowAt(y.rows, v);
      assert forall v | v in x.rows :: RowAt(x.rows, v) == RowAt(y.rows, v);
      assert forall v | v in y.rows :: RowAt(x.rows, v) == RowAt(y.rows, v);
    }
  }

  /** The recorded tombstone target is not protected: a delete that commits out of turn, is
      followed by a save, and is then retried records the re-created row's version 1. */
  lemma RetriedDeleteRetargetsTombstone(u: Uuid, row: Row, s1: QueuedMutation, s2: QueuedMutation)
    requires row.version != 1 && s1.Save? && s2.Save? && s1.uuid == s2.uuid == u
    ensures var st := Store(map[u := row], map[]);
            var q := [s1, Delete(u), s2];
            var turns := (i: nat) => Turn(i != 0, [], false);
            var d := Flush(Client(q, st), turns).0;
            && d.queue == [Delete(u), s2]
            && Replay(q, st).pending == map[u := PendingDelete(row.version, s1.gen)]
            && Replay(d.queue, d.store).pending == map[u := PendingDelete(1, s2.gen)]
  {
    var st := Store(map[u := row], map[]);
    var q := [s1, Delete(u), s2];
    var turns := (i: nat) => Turn(i != 0, [], false);
    var c0 := Client(q, st);
    var c1 := FlushStep(c0, q[0], turns(0));
    assert c1 == c0;
    var c2 := FlushStep(c1, q[1], turns(1));
    assert c2.queue == q && u !in c2.store.rows;
    var c3 := FlushStep(c2, q[2], turns(2));
    assert c3.queue == [Delete(u), s2] && c3.store.rows[u].version == 1;
    assert FlushFrom(c3, q, 3, turns).0 == c3;
    assert FlushFrom(c2, q, 2, turns).0 == c3;
    assert FlushFrom(c1, q, 1, turns).0 == c3;
    var r1 := Commit(Delete(u), c3.store);
    assert [Delete(u), s2][1..] == [s2] && [s2][1..] == [];
    assert Replay([s2], r1) == Commit(s2, r1);
    assert Replay(c3.queue, c3.store) == Commit(s2, r1);
    var t1 := Commit(s1, st);
    var t2 := Commit(Delete(u), t1);
    assert q[1..] == [Delete(u), s2];
    assert Replay([Delete(u), s2], t1) == Replay([s2], t2);
    assert Replay([s2], t2) == Commit(s2, t2);
  }
}
