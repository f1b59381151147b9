/** Local deletions recorded as tombstones, flushed to the server ahead of the rows. */
module PendingDeletes {
  import opened Common
  import opened Server
  import opened Pushing

  /** A local deletion: the row's uuid, and the version and generation it had. */
  datatype Recorded = Recorded(uuid: Uuid, version: nat, gen: nat)

  /** They are pushed without a payload, at the version of the deleted row. */
  function Tombstones(pending: seq<Recorded>): (items: seq<PushItem>)
    ensures |items| == |pending|
  {
    seq(|pending|, i requires 0 <= i < |pending| => PushItem(pending[i].uuid, pending[i].version, pending[i].gen, Tombstone))
  }

  ghost predicate DistinctRecords(pending: seq<Recorded>) {
    forall i, j | 0 <= i < j < |pending| :: pending[i].uuid != pending[j].uuid
  }

  predicate AllApplied(outcomes: seq<PushOutcome>) {
    forall o | o in outcomes :: o == Applied
  }

  /** All recorded deletions go out in one request, which the server refuses above 100 items.
      They are forgotten only when every single one was applied. */
  function FlushPending(s: Table, pending: seq<Recorded>, env: Env, clearOk: bool): (Table, seq<Recorded>) {
    if pending == [] || |pending| > MAX_BATCH then (s, pending)
    else
      var (t, outcomes) := HandleFrom(s, Tombstones(pending), 0, Handled(0, |pending|, env.request(0)), env);
      (t, if env.request(0).Delivered? && clearOk && AllApplied(outcomes) then [] else pending)
  }

  lemma {:induction false} OutcomesAgainstOthers(s: Table, t: Table, items: seq<PushItem>, i: nat, limit: nat, env: Env, j: nat)
    requires i <= j < limit <= |items| && Distinct(items)
    requires SameAhead(t, OthersBefore(s, env.before, i), items, i)
    ensures |HandleFrom(t, items, i, limit, env).1| == limit - i
    ensures HandleFrom(t, items, i, limit, env).1[j - i] == OthersAlone(s, env.before, j).Push(items[j]).1
    decreases limit - i
  {
    HandleCount(t, items, i, limit, env);
    OthersKeepSameAhead(t, OthersBefore(s, env.before, i), items, i, env.before(i));
    var t' := t.PushAll(env.before(i));
    if i < j {
      OwnPushKeepsSameAhead(t', OthersAlone(s, env.before, i), items, i);
      OutcomesAgainstOthers(s, t'.Push(items[i]).0, items, i + 1, limit, env, j);
    }
  }

  ghost predicate AllAccepted(s: Table, items: seq<PushItem>, env: Env) {
    forall i | 0 <= i < |items| :: OthersAlone(s, env.before, i).Accepts(items[i])
  }

  lemma AllAppliedIff(s: Table, items: seq<PushItem>, env: Env)
    requires Distinct(items) && items != []
    ensures AllApplied(HandleFrom(s, items, 0, |items|, env).1) <==> AllAccepted(s, items, env)
  {
    var outcomes := HandleFrom(s, items, 0, |items|, env).1;
    forall i | 0 <= i < |items|
      ensures |outcomes| == |items|
      ensures outcomes[i] == Applied <==> OthersAlone(s, env.before, i).Accepts(items[i])
    {
      OutcomesAgainstOthers(s, s, items, 0, |items|, env, i);
    }
    if AllAccepted(s, items, env) {
      forall o | o in outcomes ensures o == Applied {
        var i :| 0 <= i < |outcomes| && outcomes[i] == o;
      }
    } else {
      var i :| 0 <= i < |items| && !OthersAlone(s, env.before, i).Accepts(items[i]);
      assert outcomes[i] in outcomes;
    }
  }

  /** Exactly when the recorded deletions are forgotten: a single request can carry them, it was
      answered, clearing worked, and the server was at every recorded version with a generation it
      still takes. */
  lemma PendingClearedIff(s: Table, pending: seq<Recorded>, env: Env, clearOk: bool)
    requires DistinctRecords(pending) && pending != []
    ensures FlushPending(s, pending, env, clearOk).1 == [] <==>
            && |pending| <= 100 && env.request(0).Delivered? && clearOk
            && forall i | 0 <= i < |pending| ::
                 var t := OthersAlone(s, env.before, i);
                 t.VersionOf(pending[i].uuid) == pending[i].version && pending[i].gen >= t.minGen
  {
    if |pending| <= MAX_BATCH && env.request(0).Delivered? {
      AllAppliedIff(s, Tombstones(pending), env);
      forall i | 0 <= i < |pending|
        ensures OthersAlone(s, env.before, i).Accepts(Tombstones(pending)[i]) <==>
                var t := OthersAlone(s, env.before, i);
                t.VersionOf(pending[i].uuid) == pending[i].version && pending[i].gen >= t.minGen
      {
      }
    }
  }

  /** Once forgotten, and if nobody else wrote, every one of them is a tombstone on the server, and
      nothing else has changed there. */
  lemma ForgottenMeansDeleted(s: Table, pending: seq<Recorded>, env: Env, clearOk: bool, u: Uuid)
    requires DistinctRecords(pending) && pending != [] && Quiet(env) && FlushPending(s, pending, env, clearOk).1 == []
    ensures var t := FlushPending(s, pending, env, clearOk).0;
            if exists i :: 0 <= i < |pending| && pending[i].uuid == u then u in t.items && t.items[u].body == Tombstone
            else ItemAt(t, u) == ItemAt(s, u)
  {
    var items := Tombstones(pending);
    PendingClearedIff(s, pending, env, clearOk);
    HandledRowsArePushed(s, items, 0, |items|, env);
    if i :| 0 <= i < |pending| && pending[i].uuid == u {
      QuietOthers(s, env, i);
      assert RowAfter(s, FlushPending(s, pending, env, clearOk).0, items[i]);
    } else {
      assert forall j | 0 <= j < |items| :: items[j].uuid != u;
    }
  }

  lemma VersionsNeverFall(s: Table, t: Table, u: Uuid)
    requires Evolves(s, t)
    ensures s.VersionOf(u) <= t.VersionOf(u)
  {
  }

  lemma {:induction false} HandlingEvolves(s: Table, items: seq<PushItem>, i: nat, limit: nat, env: Env)
    requires i <= limit <= |items| && s.Valid()
    ensures Evolves(s, HandleFrom(s, items, i, limit, env).0)
    decreases limit - i
  {
    if i < limit {
      var t := s.PushAll(env.before(i));
      PushAllEvolves(s, env.before(i));
      PushEvolves(t, items[i]);
      HandlingEvolves(t.Push(items[i]).0, items, i + 1, limit, env);
      EvolvesTransitive(s, t, t.Push(items[i]).0);
      EvolvesTransitive(s, t.Push(items[i]).0, HandleFrom(s, items, i, limit, env).0);
    }
  }

  lemma {:induction false} OthersEvolve(s: Table, before: nat -> seq<PushItem>, i: nat)
    requires s.Valid()
    ensures Evolves(s, OthersAlone(s, before, i))
  {
    if i == 0 {
      PushAllEvolves(s, before(0));
    } else {
      OthersEvolve(s, before, i - 1);
      var t := OthersAlone(s, before, i - 1);
      PushAllEvolves(t, before(i));
      EvolvesTransitive(s, t, t.PushAll(before(i)));
    }
  }

  lemma AppliedNow(t: Table, others: Table, items: seq<PushItem>, i: nat)
    requires i < |items| && SameAhead(t, others, items, i) && others.Accepts(items[i])
    ensures t.Push(items[i]).0.VersionOf(items[i].uuid) == items[i].target + 1
  {
  }

  lemma KeptWhileHandling(t: Table, items: seq<PushItem>, i: nat, limit: nat, env: Env)
    requires i < limit <= |items| && t.PushAll(env.before(i)).Push(items[i]).0.Valid()
    ensures t.PushAll(env.before(i)).Push(items[i]).0.VersionOf(items[i].uuid)
         <= HandleFrom(t, items, i, limit, env).0.VersionOf(items[i].uuid)
  {
    var r := t.PushAll(env.before(i)).Push(items[i]).0;
    HandlingEvolves(r, items, i + 1, limit, env);
    VersionsNeverFall(r, HandleFrom(r, items, i + 1, limit, env).0, items[i].uuid);
  }

  lemma OneHandled(s: Table, t: Table, items: seq<PushItem>, i: nat, env: Env)
    requires i < |items| && Distinct(items) && t.Valid() && SameAhead(t, OthersBefore(s, env.before, i), items, i)
    ensures var t' := t.PushAll(env.before(i));
            && SameAhead(t', OthersAlone(s, env.before, i), items, i)
            && SameAhead(t'.Push(items[i]).0, OthersBefore(s, env.before, i + 1), items, i + 1)
            && t'.Push(items[i]).0.Valid()
  {
    OthersKeepSameAhead(t, OthersBefore(s, env.before, i), items, i, env.before(i));
    var t' := t.PushAll(env.before(i));
    OwnPushKeepsSameAhead(t', OthersAlone(s, env.before, i), items, i);
    PushAllEvolves(t, env.before(i));
    PushEvolves(t', items[i]);
  }

  /** A row the server has applied is past the version it was pushed at. */
  lemma {:induction false} AppliedMovesOn(s: Table, t: Table, items: seq<PushItem>, i: nat, limit: nat, env: Env, j: nat)
    requires i <= j < limit <= |items| && Distinct(items) && t.Valid()
    requires SameAhead(t, OthersBefore(s, env.before, i), items, i)
    requires OthersAlone(s, env.before, j).Accepts(items[j])
    ensures items[j].target < HandleFrom(t, items, i, limit, env).0.VersionOf(items[j].uuid)
    decreases limit - i
  {
    OneHandled(s, t, items, i, env);
    if i < j {
      AppliedMovesOn(s, t.PushAll(env.before(i)).Push(items[i]).0, items, i + 1, limit, env, j);
    } else {
      AppliedNow(t.PushAll(env.before(i)), OthersAlone(s, env.before, i), items, i);
      KeptWhileHandling(t, items, i, limit, env);
    }
  }

  /** A deletion the server applied in a flush that kept the list (another one was refused, or the
      answer was lost) blocks the list for good: no later flush of any list holding it clears it. */
  lemma PartialFlushBlocksForGood(
    s: Table, pending: seq<Recorded>, env: Env, clearOk: bool, j: nat,
    later: Table, list: seq<Recorded>, env': Env, clearOk': bool)
    requires s.Valid() && DistinctRecords(pending) && 0 < |pending| <= MAX_BATCH
    requires j < Handled(0, |pending|, env.request(0)) && OthersAlone(s, env.before, j).Accepts(Tombstones(pending)[j])
    requires Evolves(FlushPending(s, pending, env, clearOk).0, later)
    requires DistinctRecords(list) && pending[j] in list
    ensures FlushPending(later, list, env', clearOk').1 == list
  {
    var r := pending[j];
    var t := FlushPending(s, pending, env, clearOk).0;
    AppliedMovesOn(s, s, Tombstones(pending), 0, Handled(0, |pending|, env.request(0)), env, j);
    VersionsNeverFall(t, later, r.uuid);
    var k :| 0 <= k < |list| && list[k] == r;
    OthersEvolve(later, env'.before, k);
    VersionsNeverFall(later, OthersAlone(later, env'.before, k), r.uuid);
    PendingClearedIff(later, list, env', clearOk');
  }
}
