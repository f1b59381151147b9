/**
 The offline mutation queue and its flush.

 A flush walks a snapshot of the queue.  After each commit it removes the head only
 if the head has the committed entry's kind and uuid, so under rejections the entry
 removed need not be the entry applied.  The results below say why nothing is lost.
 */
module Offline {
  import opened Common
  import opened Crypto
  import opened LocalDb

  datatype QueuedMutation =
    | Save(uuid: Uuid, gen: nat, trashed: bool, createdAt: int, payload: Payload)
    | Delete(uuid: Uuid)

  /** A recorded tombstone intent: the version and generation of the deleted row. */
  datatype PendingDelete = PendingDelete(version: nat, gen: nat)

  datatype Store = Store(rows: Rows, pending: map<Uuid, PendingDelete>)

  /** What a committed worker task does: a save keeps an existing row's version and creation time. */
  function Commit(m: QueuedMutation, st: Store): Store {
    match m
    case Save(u, gen, trashed, createdAt, payload) =>
      var version := if u in st.rows then st.rows[u].version else 1;
      var created := if u in st.rows then st.rows[u].createdAt else createdAt;
      st.(rows := st.rows[u := Row(version, gen, trashed, created, payload)])
    case Delete(u) =>
      if u in st.rows then
        Store(st.rows - {u}, st.pending[u := PendingDelete(st.rows[u].version, st.rows[u].gen)])
      else st
  }

  /** Applying a whole queue in order: the reference the flush is compared with. */
  function Replay(q: seq<QueuedMutation>, st: Store): Store
    decreases |q|
  {
    if q == [] then st else Replay(q[1..], Commit(q[0], st))
  }

  /** The removal test of the flush loop: same kind and same uuid. */
  predicate Matches(a: QueuedMutation, b: QueuedMutation) {
    a.uuid == b.uuid && a.Save? == b.Save?
  }

  /** Equal up to the creation time of rows. */
  ghost predicate SameContents(a: Rows, b: Rows) {
    && a.Keys == b.Keys
    && forall u | u in a :: a[u].(createdAt := 0) == b[u].(createdAt := 0)
  }

  // ---------------------------------------------------------------- one flush

  /** One round of the loop as the environment decides it: did the worker commit, what
      was queued meanwhile, and was the vault locked afterwards. */
  datatype Turn = Turn(commits: bool, arrivals: seq<QueuedMutation>, lockedAfter: bool)

  datatype Client = Client(queue: seq<QueuedMutation>, store: Store)

  function PopIfMatching(q: seq<QueuedMutation>, m: QueuedMutation): seq<QueuedMutation> {
    if q != [] && Matches(q[0], m) then q[1..] else q
  }

  function FlushStep(c: Client, m: QueuedMutation, t: Turn): Client {
    var q := c.queue + t.arrivals;
    if t.commits then Client(PopIfMatching(q, m), Commit(m, c.store))
    else Client(q, c.store)
  }

  /** The loop from snapshot position `i`; also counts the commits. */
  function FlushFrom(c: Client, snapshot: seq<QueuedMutation>, i: nat, turns: nat -> Turn): (Client, nat)
    requires i <= |snapshot|
    decreases |snapshot| - i
  {
    if i == |snapshot| then (c, 0)
    else
      var c' := FlushStep(c, snapshot[i], turns(i));
      var n := if turns(i).commits then 1 else 0;
      if turns(i).lockedAfter then (c', n)
      else var (d, k) := FlushFrom(c', snapshot, i + 1, turns); (d, n + k)
  }

  /** Everything queued by others while the loop ran from position `i`. */
  ghost function ArrivedFrom(snapshot: seq<QueuedMutation>, i: nat, turns: nat -> Turn): seq<QueuedMutation>
    requires i <= |snapshot|
    decreases |snapshot| - i
  {
    if i == |snapshot| then []
    else turns(i).arrivals + if turns(i).lockedAfter then [] else ArrivedFrom(snapshot, i + 1, turns)
  }

  /** Where the loop stops: the snapshot's end or just after the turn that found the vault locked. */
  ghost function StopsAt(length: nat, i: nat, turns: nat -> Turn): (n: nat)
    requires i <= length
    ensures i <= n <= length
    decreases length - i
  {
    if i == length then i
    else if turns(i).lockedAfter then i + 1
    else StopsAt(length, i + 1, turns)
  }

  // ------------------------------------------------------------ replay algebra

  lemma SameContentsCommit(m: QueuedMutation, a: Store, b: Store)
    requires SameContents(a.rows, b.rows)
    ensures SameContents(Commit(m, a).rows, Commit(m, b).rows)
  {
  }

  lemma {:induction false} SameContentsReplay(q: seq<QueuedMutation>, a: Store, b: Store)
    requires SameContents(a.rows, b.rows)
    ensures SameContents(Replay(q, a).rows, Replay(q, b).rows)
    decreases |q|
  {
    if q != [] {
      SameContentsCommit(q[0], a, b);
      SameContentsReplay(q[1..], Commit(q[0], a), Commit(q[0], b));
    }
  }

  lemma {:induction false} ReplayAppend(p: seq<QueuedMutation>, q: seq<QueuedMutation>, st: Store)
    ensures Replay(p + q, st) == Replay(q, Replay(p, st))
    decreases |p|
  {
    if p == [] {
      assert p + q == q;
    } else {
      assert (p + q)[0] == p[0] && (p + q)[1..] == p[1..] + q;
      ReplayAppend(p[1..], q, Commit(p[0], st));
    }
  }

  ghost predicate Saves(q: seq<QueuedMutation>, u: Uuid) {
    exists m :: m in q && m.Save? && m.uuid == u
  }

  ghost function VersionOrOne(rows: Rows, u: Uuid): nat {
    if u in rows then rows[u].version else 1
  }

  /** Two stores that differ at most in `u`, where the queue still has enough to say about `u`. */
  ghost predicate Mends(q: seq<QueuedMutation>, a: Rows, b: Rows, u: Uuid) {
    && SameContents(a - {u}, b - {u})
    && (Delete(u) in q ||
        (VersionOrOne(a, u) == VersionOrOne(b, u) && exists m :: m in q && m.uuid == u))
  }

  /** A queue that mentions `u` erases a difference in `u`. */
  lemma {:induction false} ReplayMends(q: seq<QueuedMutation>, a: Store, b: Store, u: Uuid)
    requires Mends(q, a.rows, b.rows, u)
    ensures SameContents(Replay(q, a).rows, Replay(q, b).rows)
    decreases |q|
  {
    var m, a', b' := q[0], Commit(q[0], a), Commit(q[0], b);
    assert q == [m] + q[1..];
    if m.uuid == u && (m.Delete? || VersionOrOne(a.rows, u) == VersionOrOne(b.rows, u)) {
      MendedByOwn(m, a, b);
      SameContentsReplay(q[1..], a', b');
    } else {
      StillMends(q, a, b, u);
      ReplayMends(q[1..], a', b', u);
    }
  }

  lemma MendedByOwn(m: QueuedMutation, a: Store, b: Store)
    requires SameContents(a.rows - {m.uuid}, b.rows - {m.uuid})
    requires m.Delete? || VersionOrOne(a.rows, m.uuid) == VersionOrOne(b.rows, m.uuid)
    ensures SameContents(Commit(m, a).rows, Commit(m, b).rows)
  {
    var x, y := Commit(m, a).rows, Commit(m, b).rows;
    forall v | v != m.uuid
      ensures v in x <==> v in y
      ensures v in x ==> x[v].(createdAt := 0) == y[v].(createdAt := 0)
    {
      assert v in a.rows <==> v in a.rows - {m.uuid};
      assert v in b.rows <==> v in b.rows - {m.uuid};
    }
    assert forall v :: v in x <==> v in y;
  }

  lemma StillMends(q: seq<QueuedMutation>, a: Store, b: Store, u: Uuid)
    requires q != [] && Mends(q, a.rows, b.rows, u)
    requires q[0].uuid != u || (q[0].Save? && VersionOrOne(a.rows, u) != VersionOrOne(b.rows, u))
    ensures Mends(q[1..], Commit(q[0], a).rows, Commit(q[0], b).rows, u)
  {
    var m := q[0];
    assert q == [m] + q[1..];
    var x, y := Commit(m, a).rows, Commit(m, b).rows;
    forall v | v != u
      ensures v in x <==> v in y
      ensures v in x ==> x[v].(createdAt := 0) == y[v].(createdAt := 0)
    {
      assert v in a.rows <==> v in a.rows - {u};
      assert v in b.rows <==> v in b.rows - {u};
    }
    assert forall v :: v in x - {u} <==> v in y - {u};
  }

  /** Committing an entry ahead of its turn does not change what the queue will produce. */
  lemma CommitAheadOfTurn(q: seq<QueuedMutation>, m: QueuedMutation, st: Store)
    requires m in q
    ensures SameContents(Replay(q, Commit(m, st)).rows, Replay(q, st).rows)
  {
    var a := Commit(m, st);
    assert a.rows - {m.uuid} == st.rows - {m.uuid};
    ReplayMends(q, a, st, m.uuid);
  }

  /** After `m` committed, a matching head is redundant if `m` is it or is still behind it. */
  lemma RemoveMatchingHead(q: seq<QueuedMutation>, m: QueuedMutation, st: Store)
    requires q != [] && Matches(q[0], m) && (q[0] == m || m in q[1..])
    ensures SameContents(Replay(q[1..], Commit(m, st)).rows, Replay(q, Commit(m, st)).rows)
  {
    var s := Commit(m, st);
    var t := Commit(q[0], s);
    if q[0] == m || m.Delete? {
      assert t.rows == s.rows;
      SameContentsReplay(q[1..], s, t);
    } else {
      assert s.rows - {m.uuid} == t.rows - {m.uuid};
      ReplayMends(q[1..], s, t, m.uuid);
    }
  }

  // ------------------------------------------------------------- flush results

  /** How far the head moves while the loop runs from `i` with the head at `j`. */
  ghost function HeadAfter(snapshot: seq<QueuedMutation>, i: nat, j: nat, turns: nat -> Turn): (k: nat)
    requires j <= i <= |snapshot|
    ensures j <= k <= StopsAt(|snapshot|, i, turns)
    decreases |snapshot| - i
  {
    if i == |snapshot| then j
    else
      var j' := if turns(i).commits && Matches(snapshot[j], snapshot[i]) then j + 1 else j;
      if turns(i).lockedAfter then j' else HeadAfter(snapshot, i + 1, j', turns)
  }

  /** One round keeps the queue a suffix of the snapshot plus arrivals, and keeps the promise. */
  lemma FlushStepKeeps(c: Client, snapshot: seq<QueuedMutation>, extra: seq<QueuedMutation>,
                       i: nat, j: nat, t: Turn)
    requires j <= i < |snapshot| && c.queue == snapshot[j..] + extra
    ensures var d := FlushStep(c, snapshot[i], t);
            var j' := if t.commits && Matches(snapshot[j], snapshot[i]) then j + 1 else j;
            && d.queue == snapshot[j'..] + (extra + t.arrivals)
            && SameContents(Replay(d.queue, d.store).rows, Replay(c.queue + t.arrivals, c.store).rows)
  {
    var m := snapshot[i];
    var q := c.queue + t.arrivals;
    assert q == snapshot[j..] + (extra + t.arrivals);
    assert q[i - j] == m && q[0] == snapshot[j];
    if t.commits {
      CommitAheadOfTurn(q, m, c.store);
      if Matches(q[0], m) {
        if i > j {
          assert q[1..][i - j - 1] == m;
        }
        RemoveMatchingHead(q, m, c.store);
        assert q[1..] == snapshot[j + 1..] + (extra + t.arrivals);
      }
    }
  }

  /** Later additions extend an equivalence of replays. */
  lemma ExtendReplay(p: seq<QueuedMutation>, a: Store, q: seq<QueuedMutation>, b: Store, later: seq<QueuedMutation>)
    requires SameContents(Replay(p, a).rows, Replay(q, b).rows)
    ensures SameContents(Replay(p + later, a).rows, Replay(q + later, b).rows)
  {
    ReplayAppend(p, later, a);
    ReplayAppend(q, later, b);
    SameContentsReplay(later, Replay(p, a), Replay(q, b));
  }

  lemma SameContentsTransitive(a: Rows, b: Rows, c: Rows)
    requires SameContents(a, b) && SameContents(b, c)
    ensures SameContents(a, c)
  {
  }

  /** The loop from any position: its exact queue. */
  lemma {:induction false} FlushFromQueue(c: Client, snapshot: seq<QueuedMutation>, extra: seq<QueuedMutation>,
                                          i: nat, j: nat, turns: nat -> Turn)
    requires j <= i <= |snapshot| && c.queue == snapshot[j..] + extra
    ensures FlushFrom(c, snapshot, i, turns).0.queue
         == snapshot[HeadAfter(snapshot, i, j, turns)..] + (extra + ArrivedFrom(snapshot, i, turns))
    decreases |snapshot| - i
  {
    var arrived := ArrivedFrom(snapshot, i, turns);
    if i == |snapshot| {
      assert extra + arrived == extra;
    } else {
      var t := turns(i);
      var d := FlushStep(c, snapshot[i], t);
      var j' := if t.commits && Matches(snapshot[j], snapshot[i]) then j + 1 else j;
      FlushStepKeeps(c, snapshot, extra, i, j, t);
      if t.lockedAfter {
        assert arrived == t.arrivals;
      } else {
        FlushFromQueue(d, snapshot, extra + t.arrivals, i + 1, j', turns);
        var later := ArrivedFrom(snapshot, i + 1, turns);
        assert (extra + t.arrivals) + later == extra + (t.arrivals + later);
        assert HeadAfter(snapshot, i, j, turns) == HeadAfter(snapshot, i + 1, j', turns);
      }
    }
  }

  /** The loop from any position: replay equivalence. */
  lemma {:induction false} FlushFromKeeps(c: Client, snapshot: seq<QueuedMutation>, extra: seq<QueuedMutation>,
                                          i: nat, j: nat, turns: nat -> Turn)
    requires j <= i <= |snapshot| && c.queue == snapshot[j..] + extra
    ensures var d := FlushFrom(c, snapshot, i, turns).0;
            SameContents(Replay(d.queue, d.store).rows,
                         Replay(c.queue + ArrivedFrom(snapshot, i, turns), c.store).rows)
    decreases |snapshot| - i
  {
    var arrived := ArrivedFrom(snapshot, i, turns);
    if i == |snapshot| {
      assert c.queue + arrived == c.queue;
    } else {
      var t := turns(i);
      var d := FlushStep(c, snapshot[i], t);
      var j' := if t.commits && Matches(snapshot[j], snapshot[i]) then j + 1 else j;
      FlushStepKeeps(c, snapshot, extra, i, j, t);
      if t.lockedAfter {
        assert arrived == t.arrivals;
      } else {
        var later := ArrivedFrom(snapshot, i + 1, turns);
        var e := FlushFrom(d, snapshot, i + 1, turns).0;
        FlushFromKeeps(d, snapshot, extra + t.arrivals, i + 1, j', turns);
        ExtendReplay(d.queue, d.store, c.queue + t.arrivals, c.store, later);
        assert c.queue + arrived == (c.queue + t.arrivals) + later;
        SameContentsTransitive(Replay(e.queue, e.store).rows, Replay(d.queue + later, d.store).rows,
                               Replay(c.queue + arrived, c.store).rows);
      }
    }
  }

  function Flush(c: Client, turns: nat -> Turn): (Client, nat) {
    FlushFrom(c, c.queue, 0, turns)
  }

  /** What a flush owes its caller: replaying what is left gives what replaying everything gave. */
  lemma FlushLosesNothing(c: Client, turns: nat -> Turn)
    ensures var d := Flush(c, turns).0;
            SameContents(Replay(d.queue, d.store).rows,
                         Replay(c.queue + ArrivedFrom(c.queue, 0, turns), c.store).rows)
  {
    assert c.queue == c.queue[0..] + [];
    FlushFromKeeps(c, c.queue, [], 0, 0, turns);
  }

  /** Some entry at or after `k`, committed in this flush, has the kind and uuid of entry `k`. */
  ghost predicate CoveredBy(snapshot: seq<QueuedMutation>, k: nat, from: nat, to: nat, turns: nat -> Turn)
    requires k < |snapshot| && to <= |snapshot|
  {
    exists i :: from <= i < to && k <= i && turns(i).commits && Matches(snapshot[k], snapshot[i])
  }

  lemma {:induction false} RemovedAreCovered(snapshot: seq<QueuedMutation>, i: nat, j: nat, k: nat, turns: nat -> Turn)
    requires j <= i <= |snapshot|
    requires j <= k < HeadAfter(snapshot, i, j, turns)
    ensures CoveredBy(snapshot, k, i, StopsAt(|snapshot|, i, turns), turns)
    decreases |snapshot| - i
  {
    var j' := if turns(i).commits && Matches(snapshot[j], snapshot[i]) then j + 1 else j;
    if j' <= k {
      RemovedAreCovered(snapshot, i + 1, j', k, turns);
      var w :| i + 1 <= w < StopsAt(|snapshot|, i + 1, turns) && k <= w && turns(w).commits
               && Matches(snapshot[k], snapshot[w]);
    } else {
      assert k == j;
    }
  }

  lemma {:induction false} AllCommitsMoveTheHead(snapshot: seq<QueuedMutation>, i: nat, turns: nat -> Turn)
    requires i <= |snapshot|
    requires forall k | i <= k < |snapshot| :: turns(k).commits && !turns(k).lockedAfter
    ensures HeadAfter(snapshot, i, i, turns) == |snapshot|
    decreases |snapshot| - i
  {
    if i < |snapshot| {
      AllCommitsMoveTheHead(snapshot, i + 1, turns);
    }
  }

  /** Only a prefix of the snapshot goes, each removed entry is covered by a commit at or
      after it, and a flush without rejections and without a lock removes the whole snapshot. */
  lemma FlushRemovesOnlyWhatIsSafe(c: Client, turns: nat -> Turn)
    ensures var q := Flush(c, turns).0.queue;
            var k := HeadAfter(c.queue, 0, 0, turns);
            && q == c.queue[k..] + ArrivedFrom(c.queue, 0, turns)
            && forall j | 0 <= j < k :: CoveredBy(c.queue, j, 0, StopsAt(|c.queue|, 0, turns), turns)
    ensures (forall i | 0 <= i < |c.queue| :: turns(i).commits && !turns(i).lockedAfter)
            ==> Flush(c, turns).0.queue == ArrivedFrom(c.queue, 0, turns)
  {
    assert c.queue == c.queue[0..] + [];
    FlushFromQueue(c, c.queue, [], 0, 0, turns);
    var k := HeadAfter(c.queue, 0, 0, turns);
    assert [] + ArrivedFrom(c.queue, 0, turns) == ArrivedFrom(c.queue, 0, turns);
    forall j | 0 <= j < k
      ensures CoveredBy(c.queue, j, 0, StopsAt(|c.queue|, 0, turns), turns)
    {
      RemovedAreCovered(c.queue, 0, 0, j, turns);
    }
    if forall i | 0 <= i < |c.queue| :: turns(i).commits && !turns(i).lockedAfter {
      AllCommitsMoveTheHead(c.queue, 0, turns);
      assert c.queue[|c.queue|..] == [];
    }
  }

  // ------------------------------------------------------------------ what a replay leaves

  /** The last entry that concerns the item. */
  ghost function LastMention(q: seq<QueuedMutation>, u: Uuid): Option<QueuedMutation>
    decreases |q|
  {
    if q == [] then None
    else if q[|q| - 1].uuid == u then Some(q[|q| - 1])
    else LastMention(q[..|q| - 1], u)
  }

  lemma {:induction false} VersionAfterReplay(q: seq<QueuedMutation>, st: Store, u: Uuid)
    ensures VersionOrOne(Replay(q, st).rows, u) == if Delete(u) in q then 1 else VersionOrOne(st.rows, u)
    decreases |q|
  {
    if q != [] {
      assert q == [q[0]] + q[1..];
      VersionAfterReplay(q[1..], Commit(q[0], st), u);
    }
  }

  /** The last word on an item decides: a delete leaves no row; a save leaves a row with its generation,
      its trash flag and its payload, at the version the row had, or 1 if it was new or was deleted in
      between; an item that is not mentioned keeps its row. */
  lemma {:induction false} LastWordDecides(q: seq<QueuedMutation>, st: Store, u: Uuid)
    ensures var rows := Replay(q, st).rows;
            match LastMention(q, u)
            case None => RowAt(rows, u) == RowAt(st.rows, u)
            case Some(Delete(_)) => u !in rows
            case Some(Save(_, gen, trashed, _, payload)) =>
              u in rows && rows[u].gen == gen && rows[u].trashed == trashed && rows[u].payload == payload
              && rows[u].version == if Delete(u) in q then 1 else VersionOrOne(st.rows, u)
    decreases |q|
  {
    if q != [] {
      var n := |q| - 1;
      assert q == q[..n] + [q[n]];
      ReplayAppend(q[..n], [q[n]], st);
      assert [q[n]][1..] == [] && Replay([q[n]], Replay(q[..n], st)) == Commit(q[n], Replay(q[..n], st));
      LastWordDecides(q[..n], st, u);
      VersionAfterReplay(q[..n], st, u);
    }
  }

  /** How many of these turns commit. */
  ghost function CommitsIn(i: nat, n: nat, turns: nat -> Turn): nat
    requires i <= n
    decreases n - i
  {
    if i == n then 0 else (if turns(i).commits then 1 else 0) + CommitsIn(i + 1, n, turns)
  }

  /** The number a flush reports is the number of entries that committed before it stopped. */
  lemma {:induction false} AppliedIsTheCommits(c: Client, snapshot: seq<QueuedMutation>, i: nat, turns: nat -> Turn)
    requires i <= |snapshot|
    ensures FlushFrom(c, snapshot, i, turns).1 == CommitsIn(i, StopsAt(|snapshot|, i, turns), turns)
    decreases |snapshot| - i
  {
    if i < |snapshot| && !turns(i).lockedAfter {
      AppliedIsTheCommits(FlushStep(c, snapshot[i], turns(i)), snapshot, i + 1, turns);
    } else if i < |snapshot| {
      assert CommitsIn(i + 1, i + 1, turns) == 0;
    }
  }

  // ------------------------------------------------------------------ whole runs

  datatype Event = Enqueue(m: QueuedMutation) | FlushQueue(turns: nat -> Turn)

  function Step(c: Client, e: Event): Client {
    match e
    case Enqueue(m) => c.(queue := c.queue + [m])
    case FlushQueue(turns) => Flush(c, turns).0
  }

  ghost function Queued(c: Client, e: Event): seq<QueuedMutation> {
    match e
    case Enqueue(m) => [m]
    case FlushQueue(turns) => ArrivedFrom(c.queue, 0, turns)
  }

  function Run(c: Client, events: seq<Event>): Client
    decreases |events|
  {
    if events == [] then c else Run(Step(c, events[0]), events[1..])
  }

  /** Every mutation queued during a run, in order. */
  ghost function AllQueued(c: Client, events: seq<Event>): seq<QueuedMutation>
    decreases |events|
  {
    if events == [] then []
    else Queued(c, events[0]) + AllQueued(Step(c, events[0]), events[1..])
  }

  /** Over any run of flushes and additions, replaying the remaining queue on the current store
      gives the contents of replaying every mutation ever queued on the original store. */
  lemma {:induction false} RunLosesNothing(c: Client, events: seq<Event>)
    ensures var d := Run(c, events);
            SameContents(Replay(d.queue, d.store).rows,
                         Replay(c.queue + AllQueued(c, events), c.store).rows)
    decreases |events|
  {
    if events == [] {
      assert c.queue + AllQueued(c, events) == c.queue;
    } else {
      var e := events[0];
      var now, later := Queued(c, e), AllQueued(Step(c, e), events[1..]);
      var d := Step(c, e);
      RunLosesNothing(d, events[1..]);
      match e {
        case Enqueue(m) =>
        case FlushQueue(turns) => FlushLosesNothing(c, turns);
      }
      assert c.queue + AllQueued(c, events) == (c.queue + now) + later;
      ExtendReplay(d.queue, d.store, c.queue + now, c.store, later);
    }
  }

  // ------------------------------------------------------------ the running code

  /** The shared FIFO. */
  class OfflineQueue {
    var queue: seq<QueuedMutation>

    constructor ()
      ensures queue == []
    {
      queue := [];
    }

    method Push(m: QueuedMutation) returns (length: nat)
      modifies this
      ensures queue == old(queue) + [m] && length == |old(queue)| + 1
    {
      queue := queue + [m];
      length := |queue|;
    }

    method PeekAll() returns (snapshot: seq<QueuedMutation>)
      ensures snapshot == queue
    {
      snapshot := queue;
    }

    method PopFrontIf(test: QueuedMutation -> bool) returns (front: Option<QueuedMutation>)
      modifies this
      ensures old(queue) != [] && test(old(queue)[0])
              ==> front == Some(old(queue)[0]) && queue == old(queue)[1..]
      ensures old(queue) == [] || !test(old(queue)[0]) ==> front == None && queue == old(queue)
    {
      if queue != [] && test(queue[0]) {
        front := Some(queue[0]);
        queue := queue[1..];
      } else {
        front := None;
      }
    }

    method Drain() returns (all: seq<QueuedMutation>)
      modifies this
      ensures all == old(queue) && queue == []
    {
      all := queue;
      queue := [];
    }
  }

  class OfflineClient {
    const offline: OfflineQueue
    var store: Store

    constructor (store: Store)
      ensures this.store == store && fresh(offline) && offline.queue == []
    {
      this.store := store;
      offline := new OfflineQueue();
    }

    ghost function State(): Client
      reads this, offline
    {
      Client(offline.queue, store)
    }

    /** `flush_offline_queue`: peek, apply one by one, remove a matching head after each commit,
        stop when the vault is found locked. */
    method FlushOfflineQueue(turns: nat -> Turn) returns (applied: nat)
      modifies this, offline
      ensures (State(), applied) == old(Flush(State(), turns))
      ensures SameContents(Replay(offline.queue, store).rows,
                           old(Replay(offline.queue + ArrivedFrom(offline.queue, 0, turns), store).rows))
    {
      FlushLosesNothing(State(), turns);
      var mutations := offline.PeekAll();
      applied := 0;
      var i := 0;
      var stopped := false;
      ghost var result := Flush(State(), turns);
      while i < |mutations| && !stopped
        invariant 0 <= i <= |mutations|
        invariant !stopped ==>
          var (c, k) := FlushFrom(State(), mutations, i, turns); result == (c, applied + k)
        invariant stopped ==> result == (State(), applied)
      {
        var m, t := mutations[i], turns(i);
        if t.commits {
          store := Commit(m, store);
        }
        offline.queue := offline.queue + t.arrivals;
        if t.commits {
          var _ := offline.PopFrontIf(head => Matches(head, m));
          applied := applied + 1;
        }
        stopped := t.lockedAfter;
        i := i + 1;
      }
    }
  }
}
