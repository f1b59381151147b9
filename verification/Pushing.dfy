/**
 Pushing local rows.  They go out in requests of 100; a row whose version is not the
 server's comes back as a conflict and is published for the user.

 Other devices may write before the server handles any row.
 */
module Pushing {
  import opened Common
  import opened Crypto
  import opened LocalDb
  import opened Server

  const CHUNK := 100

  datatype Event = ConflictDetected(uuid: Uuid, localVersion: nat, serverVersion: nat, toxic: bool)

  /** Others' writes before row `i` is handled, and the fate of the request that starts at row `c`. */
  datatype Env = Env(before: nat -> seq<PushItem>, request: nat -> Delivery)

  /** Nobody else writes. */
  ghost predicate Quiet(env: Env) {
    forall i: nat :: env.before(i) == []
  }

  // ------------------------------------------------------------------- the push

  /** Rows as `list_local_items` gives them: each uuid once (it is the table's key). */
  ghost predicate Distinct(items: seq<PushItem>) {
    forall i, j | 0 <= i < j < |items| :: items[i].uuid != items[j].uuid
  }

  ghost predicate ListsRows(items: seq<PushItem>, rows: Rows) {
    && Distinct(items)
    && (forall i | 0 <= i < |items| ::
          items[i].uuid in rows && items[i] == LocalItem(rows, items[i].uuid))
    && (forall u | u in rows :: exists i :: 0 <= i < |items| && items[i].uuid == u)
  }

  /** A local row is pushed at its own version; trashed rows are pushed like the others. */
  function LocalItem(rows: Rows, u: Uuid): PushItem
    requires u in rows
  {
    PushItem(u, rows[u].version, rows[u].gen, Live(rows[u].payload))
  }

  /** The server handles rows `i` up to `limit`. */
  function HandleFrom(s: Table, items: seq<PushItem>, i: nat, limit: nat, env: Env): (Table, seq<PushOutcome>)
    requires i <= limit <= |items|
    decreases limit - i
  {
    if i == limit then (s, [])
    else
      var (t, o) := s.PushAll(env.before(i)).Push(items[i]);
      var (r, os) := HandleFrom(t, items, i + 1, limit, env);
      (r, [o] + os)
  }

  /** The conflicts among the outcomes of rows `c`, `c + 1`, ... */
  function Report(items: seq<PushItem>, c: nat, outcomes: seq<PushOutcome>, toxic: set<Uuid>): seq<Event>
    requires c + |outcomes| <= |items|
    decreases |outcomes|
  {
    if outcomes == [] then []
    else
      var p := items[c];
      (match outcomes[0]
       case Conflict(v) => [ConflictDetected(p.uuid, p.target, v, p.uuid in toxic)]
       case _ => [])
      + Report(items, c + 1, outcomes[1..], toxic)
  }

  function ChunkEnd(c: nat, n: nat): nat {
    if c + CHUNK < n then c + CHUNK else n
  }

  /** How many rows of the request the server handles, and whether the client hears of it. */
  function Handled(c: nat, end: nat, d: Delivery): (limit: nat)
    requires c <= end
    ensures c <= limit <= end
  {
    match d
    case Delivered => end
    case Broken(h) => if c + h < end then c + h else end
  }

  lemma {:induction false} HandleCount(s: Table, items: seq<PushItem>, i: nat, limit: nat, env: Env)
    requires i <= limit <= |items|
    ensures |HandleFrom(s, items, i, limit, env).1| == limit - i
    decreases limit - i
  {
    if i < limit {
      HandleCount(s.PushAll(env.before(i)).Push(items[i]).0, items, i + 1, limit, env);
    }
  }

  /** The rows from `c` on: the table, the published events and whether every request was answered. */
  function PushRowsFrom(s: Table, items: seq<PushItem>, c: nat, env: Env, toxic: set<Uuid>): (Table, seq<Event>, bool)
    requires c <= |items|
    decreases |items| - c
  {
    if c == |items| then (s, [], true)
    else
      var end := ChunkEnd(c, |items|);
      var limit := Handled(c, end, env.request(c));
      var (t, outcomes) := HandleFrom(s, items, c, limit, env);
      HandleCount(s, items, c, limit, env);
      if env.request(c).Broken? then (t, [], false)
      else
        var (r, events, ok) := PushRowsFrom(t, items, end, env, toxic);
        (r, Report(items, c, outcomes, toxic) + events, ok)
  }

  /** The rows whose outcome reached the client: those of the requests before the first broken one. */
  function AnsweredFrom(items: seq<PushItem>, c: nat, env: Env): (n: nat)
    requires c <= |items|
    ensures c <= n <= |items|
    decreases |items| - c
  {
    if c == |items| || env.request(c).Broken? then c
    else AnsweredFrom(items, ChunkEnd(c, |items|), env)
  }

  // ------------------------------------------------------------------- what is reported

  /** The table just before row `i` is handled if this client had pushed nothing. */
  ghost function OthersAlone(s: Table, before: nat -> seq<PushItem>, i: nat): Table {
    (if i == 0 then s else OthersAlone(s, before, i - 1)).PushAll(before(i))
  }

  predicate ConflictsAt(t: Table, p: PushItem) {
    p.gen >= t.minGen && p.target != t.VersionOf(p.uuid)
  }

  function EventFor(t: Table, p: PushItem, toxic: set<Uuid>): Event {
    ConflictDetected(p.uuid, p.target, t.VersionOf(p.uuid), p.uuid in toxic)
  }

  /** The reference: row by row, compare with what the other writers alone have made of it. */
  ghost function ExpectedFrom(s: Table, items: seq<PushItem>, i: nat, limit: nat, env: Env, toxic: set<Uuid>): seq<Event>
    requires i <= limit <= |items|
    decreases limit - i
  {
    if i == limit then []
    else
      var p, t := items[i], OthersAlone(s, env.before, i);
      (if ConflictsAt(t, p) then [EventFor(t, p, toxic)] else [])
      + ExpectedFrom(s, items, i + 1, limit, env, toxic)
  }

  /** Equal versions from row `i` on. */
  ghost predicate SameAhead(s: Table, t: Table, items: seq<PushItem>, i: nat) {
    && s.minGen == t.minGen
    && forall j | i <= j < |items| :: s.VersionOf(items[j].uuid) == t.VersionOf(items[j].uuid)
  }

  /** Other writers are accepted or refused alike where the versions are alike. */
  lemma {:induction false} OthersKeepSameAhead(s: Table, t: Table, items: seq<PushItem>, i: nat, ps: seq<PushItem>)
    requires SameAhead(s, t, items, i)
    ensures SameAhead(s.PushAll(ps), t.PushAll(ps), items, i)
    decreases |ps|
  {
    if ps != [] {
      OthersKeepSameAhead(s.Push(ps[0]).0, t.Push(ps[0]).0, items, i, ps[1..]);
    }
  }

  lemma OwnPushKeepsSameAhead(s: Table, t: Table, items: seq<PushItem>, i: nat)
    requires i < |items| && Distinct(items) && SameAhead(s, t, items, i)
    ensures SameAhead(s.Push(items[i]).0, t, items, i + 1)
  {
  }

  /** The others' table that row `i` starts from, before their writes at `i`. */
  ghost function OthersBefore(s: Table, before: nat -> seq<PushItem>, i: nat): Table {
    if i == 0 then s else OthersAlone(s, before, i - 1)
  }

  lemma {:induction false} HandledRowsReport(s: Table, t: Table, items: seq<PushItem>, i: nat, limit: nat, env: Env, toxic: set<Uuid>)
    requires i <= limit <= |items| && Distinct(items)
    requires SameAhead(t, OthersBefore(s, env.before, i), items, i)
    ensures var (r, outcomes) := HandleFrom(t, items, i, limit, env);
            && |outcomes| == limit - i
            && Report(items, i, outcomes, toxic) == ExpectedFrom(s, items, i, limit, env, toxic)
            && SameAhead(r, OthersBefore(s, env.before, limit), items, limit)
    decreases limit - i
  {
    if i < limit {
      OthersKeepSameAhead(t, OthersBefore(s, env.before, i), items, i, env.before(i));
      var t' := t.PushAll(env.before(i));
      OwnPushKeepsSameAhead(t', OthersAlone(s, env.before, i), items, i);
      var (r, o) := t'.Push(items[i]);
      HandledRowsReport(s, r, items, i + 1, limit, env, toxic);
      var rest := HandleFrom(r, items, i + 1, limit, env).1;
      assert ([o] + rest)[1..] == rest;
    }
  }

  lemma {:induction false} ExpectedSplits(s: Table, items: seq<PushItem>, i: nat, mid: nat, limit: nat, env: Env, toxic: set<Uuid>)
    requires i <= mid <= limit <= |items|
    ensures ExpectedFrom(s, items, i, limit, env, toxic)
         == ExpectedFrom(s, items, i, mid, env, toxic) + ExpectedFrom(s, items, mid, limit, env, toxic)
    decreases mid - i
  {
    if i < mid {
      ExpectedSplits(s, items, i + 1, mid, limit, env, toxic);
    }
  }

  /** The published conflicts are those of the rows, in row order, whose version is not the one
      the other writers left; how the rows are cut into requests and what this client itself
      pushed before makes no difference. */
  lemma {:induction false} ReportsFrom(s: Table, t: Table, items: seq<PushItem>, c: nat, env: Env, toxic: set<Uuid>)
    requires c <= |items| && Distinct(items) && SameAhead(t, OthersBefore(s, env.before, c), items, c)
    ensures var n := AnsweredFrom(items, c, env);
            var (r, events, ok) := PushRowsFrom(t, items, c, env, toxic);
            && events == ExpectedFrom(s, items, c, n, env, toxic)
            && ok == (n == |items|)
    decreases |items| - c
  {
    if c < |items| && env.request(c).Delivered? {
      var end := ChunkEnd(c, |items|);
      HandledRowsReport(s, t, items, c, end, env, toxic);
      var r := HandleFrom(t, items, c, end, env).0;
      ReportsFrom(s, r, items, end, env, toxic);
      ExpectedSplits(s, items, c, end, AnsweredFrom(items, end, env), env, toxic);
    }
  }

  lemma PublishesExactlyTheConflicts(s: Table, items: seq<PushItem>, env: Env, toxic: set<Uuid>)
    requires Distinct(items)
    ensures var n := AnsweredFrom(items, 0, env);
            var (_, events, ok) := PushRowsFrom(s, items, 0, env, toxic);
            && events == ExpectedFrom(s, items, 0, n, env, toxic)
            && ok == (n == |items|)
  {
    ReportsFrom(s, s, items, 0, env, toxic);
  }

  /** A reported uuid is that of a row that was compared. */
  lemma {:induction false} ReportedAreRows(s: Table, items: seq<PushItem>, i: nat, limit: nat, env: Env, toxic: set<Uuid>, e: Event)
    requires i <= limit <= |items| && e in ExpectedFrom(s, items, i, limit, env, toxic)
    ensures exists j :: i <= j < limit && ConflictsAt(OthersAlone(s, env.before, j), items[j])
                        && e == EventFor(OthersAlone(s, env.before, j), items[j], toxic)
    decreases limit - i
  {
    if i < limit {
      var t := OthersAlone(s, env.before, i);
      if !(ConflictsAt(t, items[i]) && e == EventFor(t, items[i], toxic)) {
        ReportedAreRows(s, items, i + 1, limit, env, toxic, e);
      }
    }
  }

  lemma {:induction false} ConflictsAreReported(s: Table, items: seq<PushItem>, i: nat, limit: nat, env: Env, toxic: set<Uuid>, j: nat)
    requires i <= j < limit <= |items| && ConflictsAt(OthersAlone(s, env.before, j), items[j])
    ensures EventFor(OthersAlone(s, env.before, j), items[j], toxic) in ExpectedFrom(s, items, i, limit, env, toxic)
    decreases limit - i
  {
    if i < j {
      ConflictsAreReported(s, items, i + 1, limit, env, toxic, j);
    }
  }

  /** Row by row: an answered row is reported, with its own version and the server's, exactly when
      the two differ and its key generation is still taken. */
  lemma ReportedIff(s: Table, items: seq<PushItem>, env: Env, toxic: set<Uuid>, j: nat)
    requires Distinct(items) && j < AnsweredFrom(items, 0, env)
    ensures var events, t := PushRowsFrom(s, items, 0, env, toxic).1, OthersAlone(s, env.before, j);
            && (EventFor(t, items[j], toxic) in events <==> ConflictsAt(t, items[j]))
            && ((exists e :: e in events && e.uuid == items[j].uuid) <==> ConflictsAt(t, items[j]))
  {
    var events, t, n := PushRowsFrom(s, items, 0, env, toxic).1, OthersAlone(s, env.before, j), AnsweredFrom(items, 0, env);
    PublishesExactlyTheConflicts(s, items, env, toxic);
    if ConflictsAt(t, items[j]) {
      ConflictsAreReported(s, items, 0, n, env, toxic, j);
    }
    forall e | e in events && e.uuid == items[j].uuid
      ensures ConflictsAt(t, items[j])
    {
      ReportedAreRows(s, items, 0, n, env, toxic, e);
    }
  }

  /** A row saved locally for the first time has version 1 and the server none, so without another
      writer it is never created by a push: it is reported, with server version 0. */
  lemma NewRowIsOnlyReported(s: Table, items: seq<PushItem>, env: Env, toxic: set<Uuid>, j: nat)
    requires Distinct(items) && Quiet(env) && j < |items| == AnsweredFrom(items, 0, env)
    requires items[j].uuid !in s.items && items[j].target == 1 && items[j].gen >= s.minGen
    ensures var (t, events, _) := PushRowsFrom(s, items, 0, env, toxic);
            && items[j].uuid !in t.items
            && ConflictDetected(items[j].uuid, 1, 0, items[j].uuid in toxic) in events
  {
    QuietOthers(s, env, j);
    ReportedIff(s, items, env, toxic, j);
    WritesExactlyTheAccepted(s, items, 0, env, toxic);
    assert RowAfter(s, PushRowsFrom(s, items, 0, env, toxic).0, items[j]);
  }

  // ------------------------------------------------------------------- what is written

  /** An accepted row is at its version plus one with the client's payload; a refused one is as it was. */
  ghost predicate RowAfter(s: Table, t: Table, p: PushItem) {
    if s.Accepts(p) then
      p.uuid in t.items && t.items[p.uuid] == Item(p.target + 1, p.gen, p.body, t.items[p.uuid].seqno)
    else ItemAt(t, p.uuid) == ItemAt(s, p.uuid)
  }

  ghost predicate Pushed(s: Table, t: Table, items: seq<PushItem>, i: nat, limit: nat)
    requires i <= limit <= |items|
  {
    && s.minGen == t.minGen
    && (forall j | i <= j < limit :: RowAfter(s, t, items[j]))
    && (forall u | (forall j | i <= j < limit :: items[j].uuid != u) :: ItemAt(t, u) == ItemAt(s, u))
  }

  lemma PushedOne(s: Table, items: seq<PushItem>, i: nat)
    requires i < |items|
    ensures Pushed(s, s.Push(items[i]).0, items, i, i + 1)
  {
    forall u | forall j | i <= j < i + 1 :: items[j].uuid != u
      ensures ItemAt(s.Push(items[i]).0, u) == ItemAt(s, u)
    {
      assert items[i].uuid != u;
    }
  }

  lemma PushedJoins(s: Table, t: Table, r: Table, items: seq<PushItem>, i: nat, mid: nat, limit: nat)
    requires i <= mid <= limit <= |items| && Distinct(items)
    requires Pushed(s, t, items, i, mid) && Pushed(t, r, items, mid, limit)
    ensures Pushed(s, r, items, i, limit)
  {
    forall j | i <= j < limit
      ensures RowAfter(s, r, items[j])
    {
      if j < mid {
        assert RowAfter(s, t, items[j]) && ItemAt(r, items[j].uuid) == ItemAt(t, items[j].uuid);
      } else {
        assert RowAfter(t, r, items[j]) && ItemAt(t, items[j].uuid) == ItemAt(s, items[j].uuid);
      }
    }
  }

  lemma {:induction false} HandledRowsArePushed(s: Table, items: seq<PushItem>, i: nat, limit: nat, env: Env)
    requires i <= limit <= |items| && Distinct(items) && Quiet(env)
    ensures Pushed(s, HandleFrom(s, items, i, limit, env).0, items, i, limit)
    decreases limit - i
  {
    if i < limit {
      var t := s.Push(items[i]).0;
      assert s.PushAll(env.before(i)) == s;
      PushedOne(s, items, i);
      HandledRowsArePushed(t, items, i + 1, limit, env);
      PushedJoins(s, t, HandleFrom(t, items, i + 1, limit, env).0, items, i, i + 1, limit);
    }
  }

  /** The rows the server has handled: all of the answered requests, and of the broken one as many as
      it got to. */
  function HandledFrom(items: seq<PushItem>, c: nat, env: Env): (n: nat)
    requires c <= |items|
    ensures AnsweredFrom(items, c, env) <= n <= |items|
    decreases |items| - c
  {
    if c == |items| then c
    else
      var end := ChunkEnd(c, |items|);
      if env.request(c).Broken? then Handled(c, end, env.request(c)) else HandledFrom(items, end, env)
  }

  /** Without other writers a push writes the accepted among the rows that the server handled, and
      nothing else, also when a request breaks. */
  lemma {:induction false} WritesExactlyTheAccepted(s: Table, items: seq<PushItem>, c: nat, env: Env, toxic: set<Uuid>)
    requires c <= |items| && Distinct(items) && Quiet(env)
    ensures c <= HandledFrom(items, c, env)
    ensures Pushed(s, PushRowsFrom(s, items, c, env, toxic).0, items, c, HandledFrom(items, c, env))
    decreases |items| - c
  {
    if c < |items| {
      var end := ChunkEnd(c, |items|);
      if env.request(c).Broken? {
        HandledRowsArePushed(s, items, c, Handled(c, end, env.request(c)), env);
      } else {
        HandledRowsArePushed(s, items, c, end, env);
        var t := HandleFrom(s, items, c, end, env).0;
        WritesExactlyTheAccepted(t, items, end, env, toxic);
        PushedJoins(s, t, PushRowsFrom(t, items, end, env, toxic).0, items, c, end, HandledFrom(items, c, env));
      }
    }
  }

  /** No request carries more than the server takes. */
  lemma RequestsFitTheServer(c: nat, n: nat)
    requires c < n
    ensures c < ChunkEnd(c, n) <= n && ChunkEnd(c, n) - c <= MAX_BATCH
  {
  }

  lemma {:induction false} QuietOthers(s: Table, env: Env, i: nat)
    requires Quiet(env)
    ensures OthersAlone(s, env.before, i) == s
  {
    if i > 0 {
      QuietOthers(s, env, i - 1);
    }
  }

  lemma {:induction false} EveryRowReported(s: Table, items: seq<PushItem>, i: nat, env: Env, toxic: set<Uuid>)
    requires i <= |items| && Quiet(env) && forall j | i <= j < |items| :: ConflictsAt(s, items[j])
    ensures var events := ExpectedFrom(s, items, i, |items|, env, toxic);
            && |events| == |items| - i
            && forall j | 0 <= j < |events| :: events[j] == ConflictDetected(
                 items[i + j].uuid, items[i + j].target, s.VersionOf(items[i + j].uuid), items[i + j].uuid in toxic)
    decreases |items| - i
  {
    if i < |items| {
      QuietOthers(s, env, i);
      EveryRowReported(s, items, i + 1, env, toxic);
      var later := ExpectedFrom(s, items, i + 1, |items|, env, toxic);
      var first := ConflictDetected(items[i].uuid, items[i].target, s.VersionOf(items[i].uuid), items[i].uuid in toxic);
      var events := ExpectedFrom(s, items, i, |items|, env, toxic);
      assert events == [first] + later;
      forall j | 0 <= j < |events|
        ensures events[j] == ConflictDetected(
          items[i + j].uuid, items[i + j].target, s.VersionOf(items[i + j].uuid), items[i + j].uuid in toxic)
      {
        if j > 0 {
          assert events[j] == later[j - 1] && items[i + j] == items[(i + 1) + (j - 1)];
        }
      }
    }
  }

  /** A push does not touch local versions, so pushing again before a sync reports every row,
      the ones just applied included. */
  lemma PushingTwiceReportsEveryRow(s: Table, items: seq<PushItem>, env: Env, again: Env, toxic: set<Uuid>)
    requires Distinct(items) && Quiet(env) && Quiet(again)
    requires AnsweredFrom(items, 0, env) == |items| == AnsweredFrom(items, 0, again)
    requires forall i | 0 <= i < |items| :: items[i].gen >= s.minGen
    ensures var t := PushRowsFrom(s, items, 0, env, toxic).0;
            var events := PushRowsFrom(t, items, 0, again, toxic).1;
            && |events| == |items|
            && forall i | 0 <= i < |items| ::
                 events[i].uuid == items[i].uuid
                 && events[i].serverVersion == (if s.Accepts(items[i]) then items[i].target + 1 else s.VersionOf(items[i].uuid))
  {
    var t := PushRowsFrom(s, items, 0, env, toxic).0;
    WritesExactlyTheAccepted(s, items, 0, env, toxic);
    forall i | 0 <= i < |items|
      ensures ConflictsAt(t, items[i])
      ensures t.VersionOf(items[i].uuid) == if s.Accepts(items[i]) then items[i].target + 1 else s.VersionOf(items[i].uuid)
    {
      assert RowAfter(s, t, items[i]);
    }
    PublishesExactlyTheConflicts(t, items, again, toxic);
    EveryRowReported(t, items, 0, again, toxic);
  }
}
