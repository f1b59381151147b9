/**
 What sync guarantees over whole sessions and whole runs, with other devices writing
 between any two steps.
 */
module SyncRuns {
  import opened Common
  import opened Crypto
  import opened LocalDb
  import opened Server
  import opened Sync

  /** The in-memory cursor never runs ahead of what has been applied and no row is left over, save for
      rows edited here. */
  ghost predicate Good(w: World, edited: set<Uuid>) {
    && w.server.Valid()
    && w.cursor <= w.server.lastSeq && w.durable <= w.server.lastSeq
    && Sound(w.server, w.rows, w.ignored + edited, 0, w.cursor)
    && Known(w.server, w.rows, w.ignored + edited)
  }

  /** The same for the cursor that the next unlock resumes from. */
  ghost predicate DurableSound(w: World, edited: set<Uuid>) {
    Sound(w.server, w.rows, w.ignored + edited, 0, w.durable)
  }

  /** What a session starts from: the rows edited locally, the rows and the cursor. */
  datatype Start = Start(edited: set<Uuid>, rows: Rows, cursor: nat)

  /** The edits that have not been replaced since. */
  ghost function Left(b: Start, w: World): set<Uuid> {
    Untouched(b.edited, b.rows, w.rows)
  }

  ghost predicate GoodProgress(p: Progress, b: Start) {
    var w := p.world;
    && Good(w, Left(b, w))
    && p.engine <= w.server.lastSeq
    && (!p.failed ==>
          && Sound(w.server, w.rows, w.ignored + Left(b, w), 0, p.engine)
          && Sound(w.server, w.rows, w.ignored, b.cursor, p.engine))
  }

  lemma WritesKeepProgress(p: Progress, b: Start, s: Table)
    requires GoodProgress(p, b) && Evolves(p.world.server, s)
    ensures GoodProgress(p.(world := p.world.(server := s)), b)
    ensures DurableSound(p.world, Left(b, p.world)) ==> DurableSound(p.world.(server := s), Left(b, p.world))
  {
    var w := p.world;
    var exempt := w.ignored + Left(b, w);
    SoundEvolves(w.server, s, w.rows, exempt, 0, w.cursor);
    if DurableSound(w, Left(b, w)) {
      SoundEvolves(w.server, s, w.rows, exempt, 0, w.durable);
    }
    if !p.failed {
      SoundEvolves(w.server, s, w.rows, exempt, 0, p.engine);
      SoundEvolves(w.server, s, w.rows, w.ignored, b.cursor, p.engine);
    }
  }

  /** The rows of a page that needs no transaction are the rows before it. */
  lemma EmptyBatch(rows: Rows)
    ensures ApplyBatch(rows, [], []) == rows
  {
  }

  /** A page that is applied keeps every promise about the rows, and makes its own if nothing failed. */
  lemma AppliedPageKeeps(p: Progress, b: Start, c: Collected, page: Page, m: nat)
    requires GoodProgress(p, b) && Covers(p.world.server, p.engine, page) && m <= p.world.server.lastSeq
    requires Collects(c, p.world.server, page.overviews, |page.overviews|, p.world.ignored)
    ensures var w, rows := p.world, ApplyBatch(p.world.rows, c.upserts, c.deletes);
            var left := Untouched(b.edited, b.rows, rows);
            && (Sound(w.server, w.rows, w.ignored + Left(b, w), 0, m) ==> Sound(c.server, rows, w.ignored + left, 0, m))
            && Known(c.server, rows, w.ignored + left)
            && (!p.failed && !c.failed ==>
                  Sound(c.server, rows, w.ignored + left, 0, page.next) && Sound(c.server, rows, w.ignored, b.cursor, page.next))
  {
    var w := p.world;
    PageKeepsKnown(c, w.server, page, w.rows, w.ignored, w.ignored, b.edited, b.rows, p.engine);
    if Sound(w.server, w.rows, w.ignored + Left(b, w), 0, m) {
      PageKeepsSound(c, w.server, page, p.engine, w.rows, w.ignored, w.ignored, b.edited, b.rows, 0, m);
    }
    if !p.failed && !c.failed {
      CleanPageIsSound(c, w.server, page, p.engine, w.rows, w.ignored);
      PageKeepsSound(c, w.server, page, p.engine, w.rows, w.ignored, w.ignored, b.edited, b.rows, 0, p.engine);
      assert forall rows: Rows :: w.ignored + Untouched({}, b.rows, rows) == w.ignored;
      PageKeepsSound(c, w.server, page, p.engine, w.rows, w.ignored, w.ignored, {}, b.rows, b.cursor, p.engine);
    }
  }

  lemma PersistKeeps(p: Progress, b: Start, c: Collected, page: Page, ok: bool)
    requires GoodProgress(p, b) && Covers(p.world.server, p.engine, page)
    requires Collects(c, p.world.server, page.overviews, |page.overviews|, p.world.ignored)
    ensures var q := PersistPage(p, c, page.next, ok);
            && GoodProgress(q, b)
            && (!q.failed && DurableSound(p.world, Left(b, p.world)) ==> DurableSound(q.world, Left(b, q.world)))
  {
    var w := p.world;
    EmptyBatch(w.rows);
    if (c.upserts == [] && c.deletes == []) || ok {
      AppliedPageKeeps(p, b, c, page, w.cursor);
      AppliedPageKeeps(p, b, c, page, w.durable);
    } else {
      RefusedPageKeeps(p, b, c, page);
    }
  }

  lemma RefusedPageKeeps(p: Progress, b: Start, c: Collected, page: Page)
    requires GoodProgress(p, b) && Evolves(p.world.server, c.server) && Covers(p.world.server, p.engine, page)
    ensures GoodProgress(Progress(p.world.(server := c.server), page.next, p.pages + 1, true), b)
  {
    var w := p.world;
    SoundEvolves(w.server, c.server, w.rows, w.ignored + Left(b, w), 0, w.cursor);
  }

  /** A page's full effect on the promises. */
  lemma OnePageKeeps(p: Progress, b: Start, t: PageTurn)
    requires GoodProgress(p, b)
    ensures match OnePage(p, t)
            case Continue(q) =>
              && GoodProgress(q, b)
              && (!q.failed && DurableSound(p.world, Left(b, p.world)) ==> DurableSound(q.world, Left(b, q.world)))
            case Stop(w, r) => SessionEnd(p, b, w, r)
  {
    if p.pages + 1 <= MAX_PAGES {
      var s := p.world.server.PushAll(t.writes);
      PushAllEvolves(p.world.server, t.writes);
      WritesKeepProgress(p, b, s);
      if t.pullOk && !Expired(s, p.engine) {
        PulledPageKeeps(p.(world := p.world.(server := s)), b, t);
      }
    }
  }

  /** What holds when a session that had come to `p` ends. */
  ghost predicate SessionEnd(p: Progress, b: Start, w: World, r: Result) {
    && Good(w, Left(b, w))
    && (r.clean && DurableSound(p.world, Left(b, p.world)) ==> DurableSound(w, Left(b, w)))
    && (r == Done(true) ==> DurableSound(w, Left(b, w)) && Sound(w.server, w.rows, w.ignored, b.cursor, w.cursor))
  }

  /** The same after the writes, for a page that was pulled. */
  lemma PulledPageKeeps(p: Progress, b: Start, t: PageTurn)
    requires GoodProgress(p, b) && !Expired(p.world.server, p.engine)
    ensures var page := Pull(p.world.server, p.engine).value;
            var c := CollectFrom(Collected(p.world.server, [], [], false), page.overviews, 0, p.world.ignored, t.fetch);
            var q := PersistPage(p, c, page.next, t.persistOk);
            && GoodProgress(q, b)
            && (!q.failed && DurableSound(p.world, Left(b, p.world)) ==> DurableSound(q.world, Left(b, q.world)))
            && (!q.failed && !page.hasMore ==>
                  Good(q.world.(cursor := q.engine), Left(b, q.world)) && DurableSound(q.world, Left(b, q.world)))
  {
    var s := p.world.server;
    var page := Pull(s, p.engine).value;
    var c0 := Collected(s, [], [], false);
    var c := CollectFrom(c0, page.overviews, 0, p.world.ignored, t.fetch);
    var q := PersistPage(p, c, page.next, t.persistOk);
    PullCovers(s, p.engine);
    CollectsAll(c0, s, page.overviews, 0, p.world.ignored, t.fetch);
    PersistKeeps(p, b, c, page, t.persistOk);
    assert !page.hasMore ==> q.world.durable <= q.engine;
  }

  lemma {:induction false} SyncFromKeeps(p: Progress, b: Start, turns: nat -> PageTurn)
    requires GoodProgress(p, b)
    ensures var r := SyncFrom(p, turns); SessionEnd(p, b, r.0, r.1) && (p.failed ==> !r.1.clean)
    decreases MAX_PAGES - p.pages
  {
    OnePageServer(p, turns(p.pages));
    OnePageKeeps(p, b, turns(p.pages));
    match OnePage(p, turns(p.pages)) {
      case Stop(w, r) =>
      case Continue(q) =>
        SyncFromKeeps(q, b, turns);
        SessionEndChains(p, q, b, SyncFrom(q, turns).0, SyncFrom(q, turns).1);
    }
  }

  lemma SessionEndChains(p: Progress, q: Progress, b: Start, w: World, r: Result)
    requires !q.failed && DurableSound(p.world, Left(b, p.world)) ==> DurableSound(q.world, Left(b, q.world))
    requires SessionEnd(q, b, w, r) && (q.failed ==> !r.clean)
    ensures SessionEnd(p, b, w, r)
  {
  }

  lemma GoodStart(w: World, edited: set<Uuid>)
    requires Good(w, edited)
    ensures var b := Start(edited, w.rows, w.cursor); Left(b, w) == edited && GoodProgress(Progress(w, w.cursor, 0, false), b)
  {
    assert Untouched(edited, w.rows, w.rows) == edited;
  }

  /** Whatever fails and whoever writes meanwhile, the in-memory cursor stays sound off the local edits
      that are still there.  The durable cursor stays sound if nothing failed, and a completed clean
      session repairs it and brings in every change after the old cursor, over local edits too. */
  lemma SessionKeepsCursors(w: World, edited: set<Uuid>, turns: nat -> PageTurn)
    requires Good(w, edited)
    ensures var (w', r) := SyncSession(w, turns);
            var left := Untouched(edited, w.rows, w'.rows);
            && Good(w', left)
            && (r.clean && DurableSound(w, edited) ==> DurableSound(w', left))
            && (r == Done(true) ==> DurableSound(w', left) && Sound(w'.server, w'.rows, w'.ignored, w.cursor, w'.cursor))
  {
    GoodStart(w, edited);
    SyncFromKeeps(Progress(w, w.cursor, 0, false), Start(edited, w.rows, w.cursor), turns);
  }

  // ---------------------------------------------------------------- local edits and sessions

  lemma FinishedRows(p: Progress, page: Page, t: PageTurn)
    ensures var c := CollectFrom(Collected(p.world.server, [], [], false), page.overviews, 0, p.world.ignored, t.fetch);
            var w := EndWorld(FinishPage(p, page, t));
            && w.server == c.server
            && (w.rows == p.world.rows || w.rows == ApplyBatch(p.world.rows, c.upserts, c.deletes))
  {
  }

  lemma UnlistedOnPulledPage(p: Progress, t: PageTurn, u: Uuid)
    requires p.world.server.Valid() && !Expired(p.world.server, p.engine)
    requires var c := CollectFrom(Collected(p.world.server, [], [], false), Pull(p.world.server, p.engine).value.overviews,
                                  0, p.world.ignored, t.fetch);
             u in c.server.items ==> c.server.items[u].seqno <= p.engine
    ensures RowAt(EndWorld(FinishPage(p, Pull(p.world.server, p.engine).value, t)).rows, u) == RowAt(p.world.rows, u)
  {
    var s := p.world.server;
    var page := Pull(s, p.engine).value;
    var c0 := Collected(s, [], [], false);
    var c := CollectFrom(c0, page.overviews, 0, p.world.ignored, t.fetch);
    assert !Brings(c, u) by {
      PullCovers(s, p.engine);
      CollectsAll(c0, s, page.overviews, 0, p.world.ignored, t.fetch);
      UnlistedIsNotBrought(c, s, page, p.engine, p.world.ignored, u);
    }
    OnlyDeliveredRowsChange(c, p.world.rows, u);
    FinishedRows(p, page, t);
  }

  lemma UnlistedOnPage(p: Progress, t: PageTurn, u: Uuid)
    requires p.world.server.Valid()
    requires u in PageServer(p, t).items ==> PageServer(p, t).items[u].seqno <= p.engine
    ensures RowAt(EndWorld(OnePage(p, t)).rows, u) == RowAt(p.world.rows, u)
  {
    if p.pages + 1 <= MAX_PAGES {
      var s := p.world.server.PushAll(t.writes);
      PushAllEvolves(p.world.server, t.writes);
      if t.pullOk && !Expired(s, p.engine) {
        UnlistedOnPulledPage(p.(world := p.world.(server := s)), t, u);
      }
    }
  }

  lemma {:induction false} UnlistedFrom(p: Progress, turns: nat -> PageTurn, u: Uuid)
    requires p.world.server.Valid()
    requires var s := SyncFrom(p, turns).0.server; u in s.items ==> s.items[u].seqno <= p.engine
    ensures RowAt(SyncFrom(p, turns).0.rows, u) == RowAt(p.world.rows, u)
    decreases MAX_PAGES - p.pages
  {
    var t := turns(p.pages);
    OnePageServer(p, t);
    OnePageEvolves(p, t);
    match OnePage(p, t) {
      case Stop(w, r) => UnlistedOnPage(p, t, u);
      case Continue(q) =>
        SyncFromEvolves(q, turns);
        UnlistedOnPage(p, t, u);
        EngineMovesOn(p, t);
        UnlistedFrom(q, turns, u);
    }
  }

  lemma EngineMovesOn(p: Progress, t: PageTurn)
    requires p.world.server.Valid()
    ensures OnePage(p, t).Continue? ==> p.engine <= OnePage(p, t).p.engine
  {
    if p.pages + 1 <= MAX_PAGES {
      var s := p.world.server.PushAll(t.writes);
      PushAllEvolves(p.world.server, t.writes);
      if t.pullOk && !Expired(s, p.engine) {
        PullCovers(s, p.engine);
      }
    }
  }

  /** A completed clean session and a row that differs from the server's: the row, an unpushed edit
      for instance, is left alone exactly when the item is not listed after the old cursor.
      Nothing protects an edit of a listed item. */
  lemma EditSurvivesIff(w: World, edited: set<Uuid>, turns: nat -> PageTurn, u: Uuid)
    requires Good(w, edited) && SyncSession(w, turns).1 == Done(true) && u !in SyncSession(w, turns).0.ignored
    requires var v := SyncSession(w, turns).0;
             u in v.server.items && v.server.items[u].seqno <= v.cursor && !Agrees(w.rows, u, v.server.items[u])
    ensures var v := SyncSession(w, turns).0;
            RowAt(v.rows, u) == RowAt(w.rows, u) <==> v.server.items[u].seqno <= w.cursor
  {
    SessionKeepsCursors(w, edited, turns);
    var v := SyncSession(w, turns).0;
    if v.server.items[u].seqno <= w.cursor {
      UnlistedFrom(Progress(w, w.cursor, 0, false), turns, u);
    }
  }

  // ------------------------------------------------------------------------- runs

  /** `Unlock` stands for every unlock, recovery and restart of the program: each of them reads the
      durable cursor back.  A local save leaves a row, a local delete leaves none. */
  datatype Event =
    | Session(turns: nat -> PageTurn)
    | OthersWrite(writes: seq<PushItem>)
    | LocalEdit(uuid: Uuid, row: Option<Row>)
    | MarkIgnored(uuid: Uuid)
    | Unlock(cursorReadable: bool)

  function Edit(rows: Rows, u: Uuid, row: Option<Row>): Rows {
    match row case Some(r) => rows[u := r] case None => rows - {u}
  }

  function Step(w: World, e: Event): World
    requires w.server.Valid()
  {
    match e
    case Session(turns) => SyncSession(w, turns).0
    case OthersWrite(writes) => w.(server := w.server.PushAll(writes))
    case LocalEdit(u, row) => w.(rows := Edit(w.rows, u, row))
    case MarkIgnored(u) => w.(ignored := w.ignored + {u})
    case Unlock(readable) => w.(cursor := if readable then w.durable else 0)
  }

  /** The rows that hold a local edit: a session takes away those it replaced. */
  ghost function EditedAfter(w: World, edited: set<Uuid>, e: Event): set<Uuid>
    requires w.server.Valid()
  {
    match e
    case Session(turns) => Untouched(edited, w.rows, Step(w, e).rows)
    case LocalEdit(u, _) => edited + {u}
    case _ => edited
  }

  /** No download and no page transaction fails in this event. */
  ghost predicate Clean(w: World, e: Event)
    requires w.server.Valid()
  {
    e.Session? ==> SyncSession(w, e.turns).1.clean
  }

  lemma {:induction false} SyncFromEvolves(p: Progress, turns: nat -> PageTurn)
    requires p.world.server.Valid()
    ensures Evolves(p.world.server, SyncFrom(p, turns).0.server)
    decreases MAX_PAGES - p.pages
  {
    OnePageServer(p, turns(p.pages));
    OnePageEvolves(p, turns(p.pages));
    match OnePage(p, turns(p.pages)) {
      case Stop(w, r) =>
      case Continue(q) =>
        SyncFromEvolves(q, turns);
        EvolvesTransitive(p.world.server, q.world.server, SyncFrom(q, turns).0.server);
    }
  }

  lemma StepEvolves(w: World, e: Event)
    requires w.server.Valid()
    ensures Evolves(w.server, Step(w, e).server)
  {
    match e {
      case Session(turns) => SyncFromEvolves(Progress(w, w.cursor, 0, false), turns);
      case OthersWrite(writes) => PushAllEvolves(w.server, writes);
      case _ =>
    }
  }

  function Run(w: World, events: seq<Event>): World
    requires w.server.Valid()
    decreases |events|
  {
    if events == [] then w
    else StepEvolves(w, events[0]); Run(Step(w, events[0]), events[1..])
  }

  ghost function EditedOver(w: World, edited: set<Uuid>, events: seq<Event>): set<Uuid>
    requires w.server.Valid()
    decreases |events|
  {
    if events == [] then edited
    else
      StepEvolves(w, events[0]);
      EditedOver(Step(w, events[0]), EditedAfter(w, edited, events[0]), events[1..])
  }

  ghost predicate CleanRun(w: World, events: seq<Event>)
    requires w.server.Valid()
    decreases |events|
  {
    events == [] ||
    (StepEvolves(w, events[0]); Clean(w, events[0]) && CleanRun(Step(w, events[0]), events[1..]))
  }

  lemma EditKeepsSound(s: Table, rows: Rows, exempt: set<Uuid>, c: nat, u: Uuid, row: Option<Row>)
    requires Sound(s, rows, exempt, 0, c)
    ensures Sound(s, Edit(rows, u, row), exempt + {u}, 0, c)
  {
    forall v | v in s.items && v !in exempt + {u} && 0 < s.items[v].seqno <= c
      ensures Agrees(Edit(rows, u, row), v, s.items[v])
    {
      assert RowAt(Edit(rows, u, row), v) == RowAt(rows, v);
    }
  }

  lemma StepKeeps(w: World, edited: set<Uuid>, e: Event)
    requires Good(w, edited)
    ensures var w', edited' := Step(w, e), EditedAfter(w, edited, e);
            && (!e.Unlock? ==> Good(w', edited'))
            && (Clean(w, e) && DurableSound(w, edited) ==> Good(w', edited') && DurableSound(w', edited'))
  {
    match e {
      case Session(turns) => SessionKeepsCursors(w, edited, turns);
      case OthersWrite(writes) =>
        PushAllEvolves(w.server, writes);
        GoodStart(w, edited);
        WritesKeepProgress(Progress(w, w.cursor, 0, false), Start(edited, w.rows, w.cursor), w.server.PushAll(writes));
      case LocalEdit(u, row) =>
        EditKeepsSound(w.server, w.rows, w.ignored + edited, w.cursor, u, row);
        if DurableSound(w, edited) {
          EditKeepsSound(w.server, w.rows, w.ignored + edited, w.durable, u, row);
        }
        assert w.ignored + edited + {u} == w.ignored + (edited + {u});
      case MarkIgnored(u) =>
      case Unlock(readable) =>
    }
  }

  /** An unlock keeps the promise exactly when the cursor it reads back is sound; the unreadable one,
      which restarts from 0, always is. */
  lemma UnlockIsSafeIff(w: World, edited: set<Uuid>, readable: bool)
    requires Good(w, edited)
    ensures Good(Step(w, Unlock(readable)), edited) <==> (readable ==> DurableSound(w, edited))
  {
  }

  /** Is the durable cursor to be trusted after this event?  A clean session that ended normally makes
      it so, one in which something failed does not, and anything else leaves it as it was. */
  ghost predicate TrustedAfter(w: World, trusted: bool, e: Event)
    requires w.server.Valid()
  {
    if !e.Session? then trusted
    else
      var r := SyncSession(w, e.turns).1;
      r == Done(true) || (trusted && r.clean)
  }

  /** Every unlock that reads the cursor back finds it trusted. */
  ghost predicate TrustedUnlocks(w: World, trusted: bool, events: seq<Event>)
    requires w.server.Valid()
    decreases |events|
  {
    events == [] ||
    (&& (events[0] == Unlock(true) ==> trusted)
     && (StepEvolves(w, events[0]);
         TrustedUnlocks(Step(w, events[0]), TrustedAfter(w, trusted, events[0]), events[1..])))
  }

  ghost predicate TrustedOver(w: World, trusted: bool, events: seq<Event>)
    requires w.server.Valid()
    decreases |events|
  {
    if events == [] then trusted
    else
      StepEvolves(w, events[0]);
      TrustedOver(Step(w, events[0]), TrustedAfter(w, trusted, events[0]), events[1..])
  }

  lemma TrustedStepKeeps(w: World, edited: set<Uuid>, trusted: bool, e: Event)
    requires Good(w, edited) && (trusted ==> DurableSound(w, edited)) && (e == Unlock(true) ==> trusted)
    ensures var w', edited' := Step(w, e), EditedAfter(w, edited, e);
            Good(w', edited') && (TrustedAfter(w, trusted, e) ==> DurableSound(w', edited'))
  {
    match e {
      case Session(turns) => SessionKeepsCursors(w, edited, turns);
      case Unlock(readable) => UnlockIsSafeIff(w, edited, readable);
      case _ => StepKeeps(w, edited, e);
    }
  }

  /** Any run of sessions with arbitrary failures, foreign writes, local edits and unlocks keeps the
      in-memory cursor sound off the local edits still there, if each unlock comes when the durable
      cursor is to be trusted: no failure since the last clean session that ended normally. */
  lemma {:induction false} RunStaysGood(w: World, edited: set<Uuid>, trusted: bool, events: seq<Event>)
    requires Good(w, edited) && (trusted ==> DurableSound(w, edited)) && TrustedUnlocks(w, trusted, events)
    ensures var v, left := Run(w, events), EditedOver(w, edited, events);
            Good(v, left) && (TrustedOver(w, trusted, events) ==> DurableSound(v, left))
    decreases |events|
  {
    if events != [] {
      TrustedStepKeeps(w, edited, trusted, events[0]);
      RunStaysGood(Step(w, events[0]), EditedAfter(w, edited, events[0]), TrustedAfter(w, trusted, events[0]), events[1..]);
    }
  }

  /** A run without failures is such a run wherever it unlocks. */
  lemma {:induction false} CleanRunsAreTrusted(w: World, events: seq<Event>)
    requires w.server.Valid() && CleanRun(w, events)
    ensures TrustedUnlocks(w, true, events) && TrustedOver(w, true, events)
    decreases |events|
  {
    if events != [] {
      StepEvolves(w, events[0]);
      CleanRunsAreTrusted(Step(w, events[0]), events[1..]);
    }
  }

  /** So is a run that never reads the cursor back, whatever fails in it. */
  lemma {:induction false} RunsWithoutUnlocksAreTrusted(w: World, trusted: bool, events: seq<Event>)
    requires w.server.Valid() && Unlock(true) !in events
    ensures TrustedUnlocks(w, trusted, events)
    decreases |events|
  {
    if events != [] {
      assert events == [events[0]] + events[1..];
      StepEvolves(w, events[0]);
      RunsWithoutUnlocksAreTrusted(Step(w, events[0]), TrustedAfter(w, trusted, events[0]), events[1..]);
    }
  }

  // ---------------------------------------------------------------- convergence

  /** Local and server hold the same, apart from ignored items and local edits: every item agrees, and
      every row is an item. */
  ghost predicate Converged(w: World, edited: set<Uuid>) {
    && (forall u | u in w.server.items && u !in w.ignored && u !in edited :: Agrees(w.rows, u, w.server.items[u]))
    && (forall u | u in w.rows && u !in w.ignored && u !in edited :: u in w.server.items)
  }

  /** Nobody writes and nothing fails. */
  ghost predicate Undisturbed(turns: nat -> PageTurn) {
    forall i :: turns(i).writes == [] && turns(i).pullOk && turns(i).persistOk
                && forall k :: turns(i).fetch(k) == FetchTurn([], true)
  }

  lemma {:induction false} UndisturbedCollect(c: Collected, page: seq<Overview>, i: nat, ignored: set<Uuid>, fetch: nat -> FetchTurn)
    requires i <= |page| && !c.failed && forall k :: fetch(k) == FetchTurn([], true)
    requires forall ov | ov in page :: ov.uuid in c.server.items && ov == ToOverview(ov.uuid, c.server.items[ov.uuid])
    ensures var d := CollectFrom(c, page, i, ignored, fetch); d.server == c.server && !d.failed
    decreases |page| - i
  {
    if i < |page| {
      assert page[i] in page;
      UndisturbedCollect(CollectOne(c, page[i], ignored, fetch(i)), page, i + 1, ignored, fetch);
    }
  }

  lemma UndisturbedPage(p: Progress, t: PageTurn)
    requires p.world.server.Valid() && !p.failed && !Expired(p.world.server, p.engine) && p.pages < MAX_PAGES
    requires t.writes == [] && t.pullOk && t.persistOk && forall k :: t.fetch(k) == FetchTurn([], true)
    ensures var page := Pull(p.world.server, p.engine).value;
            match OnePage(p, t)
            case Continue(q) =>
              page.hasMore && q.world.server == p.world.server && q.engine == page.next && !q.failed
              && q.pages == p.pages + 1 && q.world.ignored == p.world.ignored
            case Stop(w, r) =>
              !page.hasMore && w.server == p.world.server && r == Done(true)
              && w.cursor == page.next && w.ignored == p.world.ignored
  {
    var s := p.world.server;
    var page := Pull(s, p.engine).value;
    var c := CollectFrom(Collected(s, [], [], false), page.overviews, 0, p.world.ignored, t.fetch);
    assert c.server == s && !c.failed by {
      PullCovers(s, p.engine);
      UndisturbedCollect(Collected(s, [], [], false), page.overviews, 0, p.world.ignored, t.fetch);
    }
    assert p.(world := p.world.(server := s)) == p;
    var q := PersistPage(p, c, page.next, true);
    assert q.world.server == s && !q.failed && q.engine == page.next && q.pages == p.pages + 1;
    assert OnePage(p, t) == if page.hasMore then Continue(q) else Stop(q.world.(cursor := q.engine), Done(true));
  }

  /** One page takes a hundred changes off the list, and its end is not expired. */
  lemma NextPageIsShorter(s: Table, cursor: nat)
    requires s.Valid() && cursor <= s.lastSeq && !Expired(s, cursor) && Pull(s, cursor).value.hasMore
    ensures var next := Pull(s, cursor).value.next;
            && next <= s.lastSeq && !Expired(s, next)
            && |Since(s.index, next, s.lastSeq)| == |Since(s.index, cursor, s.lastSeq)| - PAGE_LIMIT
  {
    PageIsAPrefix(s, cursor);
    NextIsInRange(s, cursor);
    var ns, next := Since(s.index, cursor, s.lastSeq), Pull(s, cursor).value.next;
    SinceIsASuffix(s.index, cursor, s.lastSeq, PAGE_LIMIT);
    assert s.items[s.index[next]].seqno == next;
  }

  /** The changes after the k-th change are the changes without the first k. */
  lemma {:induction false} SinceIsASuffix(index: map<nat, Uuid>, cursor: nat, last: nat, k: nat)
    requires 0 < k <= |Since(index, cursor, last)|
    ensures var ns := Since(index, cursor, last); Since(index, ns[k - 1], last) == ns[k..]
    decreases last - cursor
  {
    if cursor < last {
      var ns, rest := Since(index, cursor, last), Since(index, cursor + 1, last);
      if cursor + 1 in index {
        if k > 1 {
          SinceIsASuffix(index, cursor + 1, last, k - 1);
          assert ns[k..] == rest[k - 1..];
        }
      } else {
        SinceIsASuffix(index, cursor + 1, last, k);
      }
    }
  }

  lemma {:induction false} UndisturbedFrom(p: Progress, b: Start, turns: nat -> PageTurn)
    requires GoodProgress(p, b) && !p.failed && !Expired(p.world.server, p.engine) && p.pages <= MAX_PAGES
    requires Undisturbed(turns)
    ensures var (w, r) := SyncFrom(p, turns);
            var n := |Since(p.world.server.index, p.engine, p.world.server.lastSeq)|;
            && (r == Done(true) <==> p.pages < MAX_PAGES && n <= PAGE_LIMIT * (MAX_PAGES - p.pages))
            && (r == Done(true) ==> w.server == p.world.server && w.cursor == w.server.lastSeq
                                    && w.ignored == p.world.ignored)
    decreases MAX_PAGES - p.pages
  {
    if p.pages < MAX_PAGES {
      var s := p.world.server;
      var t := turns(p.pages);
      UndisturbedPage(p, t);
      PageIsAPrefix(s, p.engine);
      NextIsInRange(s, p.engine);
      OnePageKeeps(p, b, t);
      if Pull(s, p.engine).value.hasMore {
        NextPageIsShorter(s, p.engine);
        UndisturbedFrom(OnePage(p, t).p, b, turns);
      }
    }
  }

  /** From any good state, an undisturbed session ends normally exactly when the cursor is not expired
      and the backlog fits the page cap; then everything that is neither ignored nor a local edit of
      an unlisted item agrees with the server. */
  lemma UndisturbedSessionEndsIff(w: World, edited: set<Uuid>, turns: nat -> PageTurn)
    requires Good(w, edited) && Undisturbed(turns)
    ensures var (w', r) := SyncSession(w, turns);
            var left := Untouched(edited, w.rows, w'.rows);
            && (r == Done(true) <==>
                  !Expired(w.server, w.cursor)
                  && |Since(w.server.index, w.cursor, w.server.lastSeq)| <= PAGE_LIMIT * MAX_PAGES)
            && (r == Done(true) ==>
                  && w'.server == w.server && Converged(w', left) && DurableSound(w', left)
                  && (forall u | u in w.server.items && w.server.items[u].seqno > w.cursor && u !in w'.ignored ::
                        Agrees(w'.rows, u, w.server.items[u])))
  {
    if Expired(w.server, w.cursor) {
      assert turns(0).writes == [];
    } else {
      GoodStart(w, edited);
      UndisturbedFrom(Progress(w, w.cursor, 0, false), Start(edited, w.rows, w.cursor), turns);
      SessionKeepsCursors(w, edited, turns);
    }
  }

  /** The main result: after any run of sessions with arbitrary failures, arbitrary writes by others,
      arbitrary local edits and unlocks that find the durable cursor trusted, the next undisturbed
      session that ends normally leaves local and server equal, save for ignored items and for
      edits the run and the session left in place. */
  lemma SyncConverges(w: World, edited: set<Uuid>, trusted: bool, events: seq<Event>, turns: nat -> PageTurn)
    requires Good(w, edited) && (trusted ==> DurableSound(w, edited)) && TrustedUnlocks(w, trusted, events)
    requires Undisturbed(turns)
    ensures var v := Run(w, events);
            v.server.Valid() &&
            var (end, r) := SyncSession(v, turns);
            (r == Done(true) ==> Converged(end, Untouched(EditedOver(w, edited, events), v.rows, end.rows)))
  {
    RunStaysGood(w, edited, trusted, events);
    UndisturbedSessionEndsIff(Run(w, events), EditedOver(w, edited, events), turns);
  }

  // ---------------------------------------------------------------- the expired cursor

  /** Later writes only move rows further away from an expired cursor. */
  lemma ExpiryIsPermanent(s: Table, t: Table, c: nat)
    requires Evolves(s, t) && Expired(s, c)
    ensures Expired(t, c)
  {
    var u :| u in s.items;
    assert u in t.items && c + 1 < s.lastSeq;
  }

  lemma ExpiredSession(w: World, turns: nat -> PageTurn)
    requires w.server.Valid() && Expired(w.server, w.cursor)
    ensures var (w', r) := SyncSession(w, turns);
            r.PullFailed? && w' == w.(server := w'.server) && Evolves(w.server, w'.server)
  {
    var s := w.server.PushAll(turns(0).writes);
    PushAllEvolves(w.server, turns(0).writes);
    ExpiryIsPermanent(w.server, s, w.cursor);
  }

  /** What the local edits alone make of the rows. */
  function EditsOnly(rows: Rows, events: seq<Event>): Rows
    decreases |events|
  {
    if events == [] then rows
    else EditsOnly(if events[0].LocalEdit? then Edit(rows, events[0].uuid, events[0].row) else rows, events[1..])
  }

  /** Once both cursors are expired, no run of sessions, writes and unlocks changes a local row; only
      local edits do. */
  lemma {:induction false} ExpiredForever(w: World, events: seq<Event>)
    requires w.server.Valid() && Expired(w.server, w.cursor) && Expired(w.server, w.durable)
    ensures var v := Run(w, events);
            v.rows == EditsOnly(w.rows, events) && Expired(v.server, v.cursor) && Expired(v.server, v.durable)
    decreases |events|
  {
    if events != [] {
      StepEvolves(w, events[0]);
      ExpiredStep(w, events[0]);
      ExpiredForever(Step(w, events[0]), events[1..]);
    }
  }

  lemma ExpiredStep(w: World, e: Event)
    requires w.server.Valid() && Expired(w.server, w.cursor) && Expired(w.server, w.durable)
    ensures var v := Step(w, e);
            && v.rows == (if e.LocalEdit? then Edit(w.rows, e.uuid, e.row) else w.rows)
            && Expired(v.server, v.cursor) && Expired(v.server, v.durable)
  {
    var v := Step(w, e);
    StepEvolves(w, e);
    if e.Session? {
      ExpiredSession(w, e.turns);
    }
    ExpiryIsPermanent(w.server, v.server, w.cursor);
    ExpiryIsPermanent(w.server, v.server, w.durable);
  }

  /** A cursor is refused exactly when the server holds something and no change number up to the next
      one is in use. */
  lemma CursorRefusedIff(s: Table, c: nat)
    requires s.Valid()
    ensures Pull(s, c) == None <==> s.index != map[] && forall n | n in s.index :: n > c + 1
  {
    if s.items != map[] {
      var u :| u in s.items;
      assert s.items[u].seqno in s.index;
    }
    forall n | n in s.index
      ensures s.index[n] in s.items && s.items[s.index[n]].seqno == n
    {
    }
  }

  /** A fresh device is refused exactly when the vault is not empty and the row that was the
      account's very first change has been changed since. */
  lemma FreshDeviceRefusedIff(s: Table)
    requires s.Valid()
    ensures Expired(s, 0) <==> s.items != map[] && 1 !in s.index
  {
    if 1 in s.index {
      assert s.index[1] in s.items;
    }
  }

  /** Two writes to one item are enough. */
  lemma EditedOnceIsEnough(u: Uuid, gen: nat, a: Body, b: Body, blob: WrappedSvk)
    ensures var s := Table(map[], map[], 0, gen, blob).PushAll([PushItem(u, 0, gen, a), PushItem(u, 1, gen, b)]);
            s.Valid() && Expired(s, 0)
  {
    var s0 := Table(map[], map[], 0, gen, blob);
    var p, q := PushItem(u, 0, gen, a), PushItem(u, 1, gen, b);
    var s1, s2 := s0.Write(p), s0.Write(p).Write(q);
    WriteEvolves(s0, p);
    WriteEvolves(s1, q);
    assert [p, q][1..] == [q] && [q][1..] == [];
    assert s1.PushAll([q]) == s2.PushAll([]) == s2;
  }

  // --------------------------------------------------------------- the durable cursor

  function TwoItems(u: Uuid, v: Uuid, gen: nat, a: Payload, b: Payload, blob: WrappedSvk): (s: Table)
    requires u != v
    ensures s.Valid()
  {
    Table(map[u := Item(1, gen, Live(a), 1), v := Item(1, gen, Live(b), 2)], map[1 := u, 2 := v], 2, gen, blob)
  }

  lemma PullsOfTwoItems(u: Uuid, v: Uuid, gen: nat, a: Payload, b: Payload, blob: WrappedSvk)
    requires u != v
    ensures var s := TwoItems(u, v, gen, a, b, blob);
            && Pull(s, 0) == Some(Page(2, [Overview(u, 1, gen, false), Overview(v, 1, gen, false)], false))
            && Pull(s, 2) == Some(Page(2, [], false))
  {
    var s := TwoItems(u, v, gen, a, b, blob);
    assert s.items[u].seqno == 1;
    assert Since(s.index, 2, 2) == [] && Since(s.index, 1, 2) == [2] && Since(s.index, 0, 2) == [1, 2];
    PageIsAPrefix(s, 0);
    PageIsAPrefix(s, 2);
    var page := Pull(s, 0).value;
    assert page.overviews[0] == Overview(u, 1, gen, false) && page.overviews[1] == Overview(v, 1, gen, false);
    assert page.overviews == [Overview(u, 1, gen, false), Overview(v, 1, gen, false)];
  }

  /** The environment loses the first download of every page, or nothing. */
  function LosingFirst(lose: bool): nat -> PageTurn {
    (i: nat) => PageTurn([], true, (k: nat) => FetchTurn([], k != 0 || !lose), true)
  }

  lemma LossySession(u: Uuid, v: Uuid, gen: nat, a: Payload, b: Payload, blob: WrappedSvk)
    requires u != v
    ensures var w0 := World(TwoItems(u, v, gen, a, b, blob), map[], 0, 0, {});
            var w1 := w0.(rows := map[v := Row(1, gen, false, 0, b)], durable := 2);
            SyncSession(w0, LosingFirst(true)) == (w1, Done(false))
  {
    var s := TwoItems(u, v, gen, a, b, blob);
    var w0 := World(s, map[], 0, 0, {});
    var ovU, ovV := Overview(u, 1, gen, false), Overview(v, 1, gen, false);
    var p, t := Progress(w0, 0, 0, false), LosingFirst(true)(0);
    PullsOfTwoItems(u, v, gen, a, b, blob);
    assert OnePage(p, t) == FinishPage(p, Page(2, [ovU, ovV], false), t);
    LossyPage(s, u, v, gen, b, ovU, ovV, t.fetch);
    EmptyBatch(map[]);
    assert [Upsert(ovV, b)][1..] == [];
    assert Upserted(map[], [Upsert(ovV, b)]) == map[v := Row(1, gen, false, 0, b)];
  }

  lemma NothingLeft(u: Uuid, v: Uuid, gen: nat, a: Payload, b: Payload, blob: WrappedSvk, rows: Rows)
    requires u != v
    ensures var w := World(TwoItems(u, v, gen, a, b, blob), rows, 2, 2, {});
            SyncSession(w, LosingFirst(false)) == (w, Done(true))
  {
    PullsOfTwoItems(u, v, gen, a, b, blob);
    var w := World(TwoItems(u, v, gen, a, b, blob), rows, 2, 2, {});
    var p, t := Progress(w, 2, 0, false), LosingFirst(false)(0);
    assert OnePage(p, t) == FinishPage(p, Page(2, [], false), t);
  }

  /** The hypothesis of `RunStaysGood` is needed: a page that loses one download still
      writes its end as the durable cursor, and after an unlock no session asks for the item again. */
  lemma LostDownloadThenUnlock(u: Uuid, v: Uuid, gen: nat, a: Payload, b: Payload, blob: WrappedSvk)
    requires u != v
    ensures var w0 := World(TwoItems(u, v, gen, a, b, blob), map[], 0, 0, {});
            var w1 := w0.(rows := map[v := Row(1, gen, false, 0, b)], durable := 2);
            var w2 := w1.(cursor := 2);
            && Good(w0, {}) && DurableSound(w0, {})
            && SyncSession(w0, LosingFirst(true)) == (w1, Done(false))
            && Step(w1, Unlock(true)) == w2
            && SyncSession(w2, LosingFirst(false)) == (w2, Done(true))
            && !Converged(w2, {})
  {
    var s := TwoItems(u, v, gen, a, b, blob);
    var rows := map[v := Row(1, gen, false, 0, b)];
    var w0, w2 := World(s, map[], 0, 0, {}), World(s, rows, 2, 2, {});
    assert Good(w0, {}) && DurableSound(w0, {}) by {
      EmptyClientIsGood(s);
    }
    assert !Converged(w2, {}) by {
      MissingRow(w2, u);
    }
    LossySession(u, v, gen, a, b, blob);
    NothingLeft(u, v, gen, a, b, blob, rows);
  }

  lemma EmptyClientIsGood(s: Table)
    requires s.Valid()
    ensures var w := World(s, map[], 0, 0, {}); Good(w, {}) && DurableSound(w, {})
  {
  }

  lemma MissingRow(w: World, u: Uuid)
    requires u in w.server.items && w.server.items[u].body.Live? && u !in w.rows && u !in w.ignored
    ensures !Converged(w, {})
  {
    assert !Agrees(w.rows, u, w.server.items[u]);
  }

  lemma LossyPage(s: Table, u: Uuid, v: Uuid, gen: nat, b: Payload, ovU: Overview, ovV: Overview, fetch: nat -> FetchTurn)
    requires u != v && v in s.items && s.items[v].version == 1 && s.items[v].body == Live(b)
    requires ovU == Overview(u, 1, gen, false) && ovV == Overview(v, 1, gen, false)
    requires fetch(0) == FetchTurn([], false) && fetch(1) == FetchTurn([], true)
    ensures CollectFrom(Collected(s, [], [], false), [ovU, ovV], 0, {}, fetch)
         == Collected(s, [Upsert(ovV, b)], [], true)
  {
    var c1 := CollectOne(Collected(s, [], [], false), ovU, {}, fetch(0));
    assert c1 == Collected(s, [], [], true);
    var c2 := CollectOne(c1, ovV, {}, fetch(1));
    assert c2 == Collected(s, [Upsert(ovV, b)], [], true);
    assert CollectFrom(c2, [ovU, ovV], 2, {}, fetch) == c2;
    assert CollectFrom(c1, [ovU, ovV], 1, {}, fetch) == c2;
  }
}
