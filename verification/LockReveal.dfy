/**
 `reveal_secret` racing `lock`: an interleaving of any number of reveals and any number
 of locks, one shared access per step.  A reveal holds the `dek` mutex from its check of
 the key until its handle is in the table; a lock clears the key under that mutex before
 it clears the table.
 */
module LockReveal {
  import opened Common

  type Thread = nat

  /** Program counters.  `Keyed` and `Numbered` hold the mutex and have seen a key. */
  datatype Pc =
    | RevealStart
    | RevealChecked
    | RevealFetched
    | Keyed
    | Numbered(handle: nat)
    | RevealDone
    | LockStart
    | LockSvkCleared
    | LockHasMutex
    | LockDekCleared
    | LockMkCleared
    | LockTableCleared
    | LockDone

  datatype State = State(
    pcs: map<Thread, Pc>, mutex: Option<Thread>, hasKey: bool, locked: bool, table: set<nat>, next: nat)

  datatype Action = Act(thread: Thread) | Fail(thread: Thread) | Drop(handle: nat) | Unlock

  /** One step of one thread; a step that is not enabled changes nothing. */
  function Advance(s: State, t: Thread): State
    requires t in s.pcs
  {
    var pc := s.pcs[t];
    match pc
    case RevealStart => if s.locked then To(s, t, RevealDone) else To(s, t, RevealChecked)
    case RevealChecked => To(s, t, RevealFetched)
    case RevealFetched =>
      if s.mutex != None then s
      else if !s.hasKey then To(s, t, RevealDone)
      else To(s, t, Keyed).(mutex := Some(t))
    case Keyed => To(s, t, Numbered(s.next)).(next := s.next + 1)
    case Numbered(h) => To(s, t, RevealDone).(table := s.table + {h}, mutex := None)
    case RevealDone => s
    case LockStart => To(s, t, LockSvkCleared)
    case LockSvkCleared => if s.mutex != None then s else To(s, t, LockHasMutex).(mutex := Some(t))
    case LockHasMutex => To(s, t, LockDekCleared).(hasKey := false, mutex := None)
    case LockDekCleared => To(s, t, LockMkCleared)
    case LockMkCleared => To(s, t, LockTableCleared).(table := {})
    case LockTableCleared => To(s, t, LockDone).(locked := true)
    case LockDone => s
  }

  function To(s: State, t: Thread, pc: Pc): State {
    s.(pcs := s.pcs[t := pc])
  }

  /** A reveal gives up: no such item, or its payload does not open.  Its guard releases the mutex. */
  function GiveUp(s: State, t: Thread): State
    requires t in s.pcs
  {
    match s.pcs[t]
    case RevealChecked => To(s, t, RevealDone)
    case Keyed => To(s, t, RevealDone).(mutex := None)
    case _ => s
  }

  /** `Drop` is a release or the reaper; `Unlock` sets the key and the flag without the threads' knowledge. */
  function Step(s: State, a: Action): State {
    match a
    case Act(t) => if t in s.pcs then Advance(s, t) else s
    case Fail(t) => if t in s.pcs then GiveUp(s, t) else s
    case Drop(h) => s.(table := s.table - {h})
    case Unlock => if s.mutex != None then s else s.(hasKey := true, locked := false)
  }

  function Run(s: State, actions: seq<Action>): State
    decreases |actions|
  {
    if actions == [] then s else Run(Step(s, actions[0]), actions[1..])
  }

  predicate PastKeyClearing(pc: Pc) {
    pc.LockDekCleared? || PastTableClearing(pc) || pc.LockMkCleared?
  }

  predicate PastTableClearing(pc: Pc) {
    pc.LockTableCleared? || pc.LockDone?
  }

  /** Whoever is between key and table owns the mutex, and the key is there. */
  ghost predicate MutexOk(s: State, t: Thread)
    requires t in s.pcs
  {
    && (s.pcs[t].Keyed? || s.pcs[t].Numbered? ==> s.mutex == Some(t) && s.hasKey)
    && (s.pcs[t].LockHasMutex? ==> s.mutex == Some(t))
  }

  ghost predicate Inv(s: State) {
    forall t | t in s.pcs :: MutexOk(s, t)
  }

  /** What a lock has achieved: past its key step there is no key, past its table step no handle. */
  ghost predicate LockHolds(s: State, t: Thread) {
    && t in s.pcs
    && (PastKeyClearing(s.pcs[t]) ==> !s.hasKey)
    && (PastTableClearing(s.pcs[t]) ==> s.table == {})
  }

  /** Every thread at the beginning of its call. */
  ghost predicate Init(s: State) {
    s.mutex == None && forall t | t in s.pcs :: s.pcs[t].RevealStart? || s.pcs[t].LockStart?
  }

  lemma StepKeepsInv(s: State, a: Action)
    requires Inv(s)
    ensures Inv(Step(s, a))
  {
    if (a.Act? || a.Fail?) && a.thread in s.pcs {
      assert MutexOk(s, a.thread);
      forall t | t in Step(s, a).pcs
        ensures MutexOk(Step(s, a), t)
      {
        assert MutexOk(s, t);
      }
    }
  }

  /** In every interleaving, unlocks included, a reveal that has seen the key holds the mutex until its
      handle is in the table. */
  lemma {:induction false} RunKeepsInv(s: State, actions: seq<Action>)
    requires Inv(s)
    ensures Inv(Run(s, actions))
    decreases |actions|
  {
    if actions != [] {
      StepKeepsInv(s, actions[0]);
      RunKeepsInv(Step(s, actions[0]), actions[1..]);
    }
  }

  lemma StepKeepsLock(s: State, a: Action, t: Thread)
    requires Inv(s) && LockHolds(s, t) && a != Unlock
    ensures LockHolds(Step(s, a), t)
  {
    if (a.Act? || a.Fail?) && a.thread in s.pcs {
      assert MutexOk(s, a.thread) && MutexOk(s, t);
    }
  }

  lemma {:induction false} RunKeepsLock(s: State, actions: seq<Action>, t: Thread)
    requires Inv(s) && LockHolds(s, t) && Unlock !in actions
    ensures LockHolds(Run(s, actions), t)
    decreases |actions|
  {
    if actions != [] {
      assert actions == [actions[0]] + actions[1..];
      StepKeepsInv(s, actions[0]);
      StepKeepsLock(s, actions[0], t);
      RunKeepsLock(Step(s, actions[0]), actions[1..], t);
    }
  }

  lemma {:induction false} RunAppend(s: State, a: seq<Action>, b: seq<Action>)
    ensures Run(s, a + b) == Run(Run(s, a), b)
    decreases |a|
  {
    if a == [] {
      assert a + b == b;
    } else {
      assert (a + b)[0] == a[0] && (a + b)[1..] == a[1..] + b;
      RunAppend(Step(s, a[0]), a[1..], b);
    }
  }

  /** Lock beats reveal, in any session of any client: however many unlocks, locks and reveals went
      before, if nobody unlocks from the moment this lock is about to clear the key, the table is
      empty once it has cleared the table, and stays empty. */
  lemma LockBeatsReveal(s: State, before: seq<Action>, after: seq<Action>, t: Thread)
    requires Init(s) && t in Run(s, before).pcs && !PastKeyClearing(Run(s, before).pcs[t]) && Unlock !in after
    ensures var end := Run(s, before + after);
            t in end.pcs && (PastTableClearing(end.pcs[t]) ==> end.table == {})
  {
    RunKeepsInv(s, before);
    RunKeepsLock(Run(s, before), after, t);
    RunAppend(s, before, after);
  }

  /** No reveal gets hold of the key once a lock has cleared it. */
  lemma NoLateReveal(s: State, a: Action, t: Thread, r: Thread)
    requires Inv(s) && a != Unlock && LockHolds(s, t) && r in s.pcs && PastKeyClearing(s.pcs[t])
    ensures Step(s, a).table <= s.table
    ensures !s.pcs[r].Keyed? && !s.pcs[r].Numbered? && !Step(s, a).pcs[r].Keyed?
  {
    assert MutexOk(s, r);
    assert a.Act? && a.thread in s.pcs ==> MutexOk(s, a.thread);
  }

  /** Five steps of the same thread. */
  function Five(t: Thread): seq<Action> {
    [Act(t), Act(t), Act(t), Act(t), Act(t)]
  }

  /** Left to itself a reveal puts exactly one new handle into the table if the vault is open, and none
      if the flag or the missing key says that it is locked. */
  lemma RevealAlone(s: State, t: Thread)
    requires t in s.pcs && s.pcs[t] == RevealStart && s.mutex == None
    ensures var end := Run(s, Five(t));
            && end.table == (if !s.locked && s.hasKey then s.table + {s.next} else s.table)
            && end.mutex == None && t in end.pcs && end.pcs[t] == RevealDone
            && end.hasKey == s.hasKey && end.locked == s.locked
  {
    var a := Five(t);
    UnfoldFive(s, a, Step(Step(Step(Step(Step(s, a[0]), a[1]), a[2]), a[3]), a[4]));
  }

  /** Left to itself a lock ends with no key, no handle and the flag set. */
  lemma LockAlone(s: State, t: Thread)
    requires t in s.pcs && s.pcs[t] == LockStart && s.mutex == None
    ensures var end := Run(s, Five(t) + [Act(t)]);
            end.table == {} && !end.hasKey && end.locked && end.mutex == None && t in end.pcs && end.pcs[t] == LockDone
  {
    var a := Five(t);
    var five := Step(Step(Step(Step(Step(s, a[0]), a[1]), a[2]), a[3]), a[4]);
    UnfoldFive(s, a, five);
    RunAppend(s, a, [Act(t)]);
    assert [Act(t)][1..] == [] && Run(five, [Act(t)]) == Run(Step(five, Act(t)), []);
  }

  /** The hypothesis is needed: an unlock between a lock's two clearings lets a reveal finish after
      the lock, with the flag set and a live handle left behind. */
  lemma UnlockInBetweenBreaksIt()
    ensures var s := Two(RevealStart, LockStart, None, true, false, {}, 1);
            && Init(s)
            && Run(s, HalfALock()) == Two(RevealFetched, LockDekCleared, None, false, false, {}, 1)
            && LateReveal()[0] == Unlock
            && Run(s, HalfALock() + LateReveal()) == Two(RevealDone, LockDone, None, true, true, {1}, 2)
  {
    var s := Two(RevealStart, LockStart, None, true, false, {}, 1);
    FirstHalf();
    SecondHalf();
    RunAppend(s, HalfALock(), LateReveal());
  }

  /** A reveal in thread 0 and a lock in thread 1. */
  function Two(a: Pc, b: Pc, mutex: Option<Thread>, hasKey: bool, locked: bool, table: set<nat>, next: nat): State {
    State(map[0 := a, 1 := b], mutex, hasKey, locked, table, next)
  }

  /** The reveal has fetched its item; the lock has cleared the key and not yet the table. */
  function HalfALock(): seq<Action> {
    [Act(0), Act(0), Act(1), Act(1), Act(1)]
  }

  /** The unlock, the reveal seeing the new key, the rest of the lock around it. */
  function LateReveal(): seq<Action> {
    [Unlock, Act(0), Act(1), Act(1), Act(0)] + [Act(0), Act(1)]
  }

  lemma FirstHalf()
    ensures Run(Two(RevealStart, LockStart, None, true, false, {}, 1), HalfALock())
         == Two(RevealFetched, LockDekCleared, None, false, false, {}, 1)
  {
    var s0, h := Two(RevealStart, LockStart, None, true, false, {}, 1), HalfALock();
    var s1 := Step(s0, h[0]);
    assert s1 == Two(RevealChecked, LockStart, None, true, false, {}, 1);
    var s2 := Step(s1, h[1]);
    assert s2 == Two(RevealFetched, LockStart, None, true, false, {}, 1);
    var s3 := Step(s2, h[2]);
    assert s3 == Two(RevealFetched, LockSvkCleared, None, true, false, {}, 1);
    var s4 := Step(s3, h[3]);
    assert s4 == Two(RevealFetched, LockHasMutex, Some(1), true, false, {}, 1);
    var s5 := Step(s4, h[4]);
    assert s5 == Two(RevealFetched, LockDekCleared, None, false, false, {}, 1);
    UnfoldFive(s0, h, s5);
  }

  lemma SecondHalf()
    ensures Run(Two(RevealFetched, LockDekCleared, None, false, false, {}, 1), LateReveal())
         == Two(RevealDone, LockDone, None, true, true, {1}, 2)
  {
    var s0, l := Two(RevealFetched, LockDekCleared, None, false, false, {}, 1), [Unlock, Act(0), Act(1), Act(1), Act(0)];
    var s1 := Step(s0, l[0]);
    assert s1 == Two(RevealFetched, LockDekCleared, None, true, false, {}, 1);
    var s2 := Step(s1, l[1]);
    assert s2 == Two(Keyed, LockDekCleared, Some(0), true, false, {}, 1);
    var s3 := Step(s2, l[2]);
    assert s3 == Two(Keyed, LockMkCleared, Some(0), true, false, {}, 1);
    var s4 := Step(s3, l[3]);
    assert s4 == Two(Keyed, LockTableCleared, Some(0), true, false, {}, 1);
    var s5 := Step(s4, l[4]);
    assert s5 == Two(Numbered(1), LockTableCleared, Some(0), true, false, {}, 2);
    UnfoldFive(s0, l, s5);
    RunAppend(s0, l, [Act(0), Act(1)]);
    LastTwo(s5);
  }

  lemma LastTwo(s5: State)
    requires s5 == Two(Numbered(1), LockTableCleared, Some(0), true, false, {}, 2)
    ensures Run(s5, [Act(0), Act(1)]) == Two(RevealDone, LockDone, None, true, true, {1}, 2)
  {
    var s6 := Step(s5, Act(0));
    assert s6 == Two(RevealDone, LockTableCleared, None, true, false, {1}, 2);
    var s7 := Step(s6, Act(1));
    assert s7 == Two(RevealDone, LockDone, None, true, true, {1}, 2);
    assert [Act(0), Act(1)][1..] == [Act(1)] && [Act(1)][1..] == [];
    assert Run(s6, [Act(1)]) == s7;
  }

  lemma UnfoldFive(s: State, a: seq<Action>, t: State)
    requires |a| == 5 && t == Step(Step(Step(Step(Step(s, a[0]), a[1]), a[2]), a[3]), a[4])
    ensures Run(s, a) == t
  {
    var s1 := Step(s, a[0]);
    var s2 := Step(s1, a[1]);
    var s3 := Step(s2, a[2]);
    var s4 := Step(s3, a[3]);
    assert a[1..][1..] == a[2..] && a[2..][1..] == a[3..] && a[3..][1..] == a[4..] && a[4..][1..] == [];
    assert Run(s4, a[4..]) == t;
    assert Run(s3, a[3..]) == t;
    assert Run(s2, a[2..]) == t;
  }
}
