/**
 Key lifecycle: password and raw-key unlock, the second-factor gate, lock, rotation,
 vault creation and recovery, together with the account record the server keeps.
 */
module Keys {
  import opened Common
  import opened Crypto
  import opened Rotation
  import opened RotationMeaning

  datatype Method = WebAuthn | Totp

  /** What the client holds in memory. */
  datatype Session = Session(
    locked: bool, mk: Option<MasterKey>, svk: Option<Svk>, dek: Option<Key>, localGen: nat,
    factor: Option<Method>, verified: bool, recoveryPending: bool)

  /** What the server holds, and the password and salt the account currently has. */
  datatype Account = Account(minGen: nat, blob: WrappedSvk, recoveryBlob: WrappedSvk, password: string, salt: nat)

  datatype World = World(session: Session, account: Account)

  datatype Event =
    | UnlockWithPassword(password: string, userId: Uuid, gen: nat, declared: Option<Option<Method>>)
    | UnlockWithRawKey(raw: Svk, gen: nat)
    | Lock
    | SetFactor(factor: Option<Method>)
    | VerifyFactor
    | ResetFactor
    | RotateKey(newSvk: Svk, newGen: nat, delivery: AccountDelivery, finished: bool)
    | CreateVault(generated: Svk)
    | RecoverWithKey(mnemonic: nat, userId: Uuid)
    | CompleteRecovery(newPassword: string, newSalt: nat, newMnemonic: nat, owner: Uuid, written: bool, uploaded: bool)

  // ------------------------------------------------------------------- the operations

  function WithFactor(s: Session, m: Option<Method>): Session {
    s.(factor := m, verified := s.verified && m.Some?)
  }

  function Discovered(s: Session, declared: Option<Option<Method>>): Session {
    match declared case None => s case Some(m) => WithFactor(s, m)
  }

  predicate Gated(s: Session) {
    s.factor.Some? && !s.verified
  }

  function Unlocked(s: Session, svk: Svk, mk: Option<MasterKey>, gen: nat): Session {
    s.(locked := false, svk := Some(svk), dek := Some(Dek(svk)), mk := mk, localGen := gen)
  }

  /** Discover the required factor, refuse while it is unverified, then try the password. */
  function PasswordUnlock(w: World, e: Event): (World, bool)
    requires e.UnlockWithPassword?
  {
    var s := Discovered(w.session, e.declared);
    var mk := MasterKey(e.password, w.account.salt);
    if Gated(s) then (w.(session := s), false)
    else
      match UnwrapSvk(mk, e.userId, w.account.blob)
      case None => (w.(session := s), false)
      case Some(svk) => (w.(session := Unlocked(s, svk, Some(mk), e.gen)), true)
  }

  predicate RotationRefused(s: Session) {
    s.locked || s.mk.None? || s.svk.None?
  }

  /** The account after the rotation request, as the server handles it. */
  function Advance(a: Account, mk: MasterKey, e: Event): Account
    requires e.RotateKey?
  {
    if e.newGen <= a.minGen || e.delivery == Lost then a
    else if e.delivery == GenerationOnly then a.(minGen := e.newGen)
    else a.(minGen := e.newGen, blob := WrapSvk(mk, e.newSvk))
  }

  /** Keys are promoted only if the account step was confirmed and everything after it finished. */
  function RotateAttempt(w: World, e: Event): (World, bool)
    requires e.RotateKey?
  {
    var s := w.session;
    if RotationRefused(s) then (w, false)
    else
      var a := Advance(w.account, s.mk.value, e);
      if e.delivery == Confirmed && e.finished
      then (World(s.(svk := Some(e.newSvk), dek := Some(Dek(e.newSvk)), localGen := a.minGen), a), true)
      else (w.(account := a), false)
  }

  function RecoverAttempt(w: World, e: Event): (World, bool)
    requires e.RecoverWithKey?
  {
    var unwrapped := match Open(RecoveryKek(e.mnemonic), e.userId, 0, w.account.recoveryBlob)
                  case Some(svk) => Some(svk)
                  case None => Open(RecoveryKek(e.mnemonic), NIL_UUID, 0, w.account.recoveryBlob);
    match unwrapped
    case None => (w, false)
    case Some(svk) =>
      (w.(session := w.session.(locked := false, svk := Some(svk), dek := Some(Dek(svk)), recoveryPending := true)), true)
  }

  /** Re-wraps the SVK for a new password and recovery key and writes both blobs locally, which may
      fail; the caller uploads them. */
  function RecoveryCompletion(w: World, e: Event): (World, bool)
    requires e.CompleteRecovery?
  {
    var s := w.session;
    if !s.recoveryPending || s.svk.None? || !e.written then (w, false)
    else
      var a := if !e.uploaded then w.account
               else w.account.(password := e.newPassword, salt := e.newSalt,
                               blob := WrapSvk(MasterKey(e.newPassword, e.newSalt), s.svk.value),
                               recoveryBlob := Sealed(RecoveryKek(e.newMnemonic), e.owner, 0, s.svk.value));
      (World(s.(recoveryPending := false), a), true)
  }

  /** The next world, and whether the operation succeeded. */
  function Perform(w: World, e: Event): (World, bool) {
    var s := w.session;
    match e
    case UnlockWithPassword(_, _, _, _) => PasswordUnlock(w, e)
    case UnlockWithRawKey(raw, gen) => (w.(session := Unlocked(s, raw, None, gen)), true)
    case Lock =>
      (w.(session := s.(locked := true, svk := None, dek := None, mk := None, factor := None, verified := false)), true)
    case SetFactor(m) => (w.(session := WithFactor(s, m)), true)
    case VerifyFactor => (w.(session := s.(verified := true)), true)
    case ResetFactor => (w.(session := s.(factor := None, verified := false)), true)
    case RotateKey(_, _, _, _) => RotateAttempt(w, e)
    case CreateVault(generated) =>
      (w.(session := s.(locked := false, svk := Some(generated), dek := Some(Dek(generated)))), true)
    case RecoverWithKey(_, _) => RecoverAttempt(w, e)
    case CompleteRecovery(_, _, _, _, _, _) => RecoveryCompletion(w, e)
  }

  function Run(w: World, events: seq<Event>): World
    decreases |events|
  {
    if events == [] then w else Run(Perform(w, events[0]).0, events[1..])
  }

  // ------------------------------------------------------------------- never bricked

  function CurrentKey(a: Account): MasterKey {
    MasterKey(a.password, a.salt)
  }

  /** The current password opens the server's blob, whatever user id the caller passes. */
  ghost predicate Unlockable(a: Account) {
    forall userId :: UnwrapSvk(CurrentKey(a), userId, a.blob).Some?
  }

  /** The cached master key, if there is one, is the current password's. */
  ghost predicate FreshCache(w: World) {
    w.session.mk == None || w.session.mk == Some(CurrentKey(w.account))
  }

  /** A locked session holds no keys; an item key is always the key of the active SVK. */
  ghost predicate Consistent(s: Session) {
    && (s.locked ==> s.svk == None && s.mk == None)
    && s.dek == (match s.svk case None => None case Some(k) => Some(Dek(k)))
  }

  ghost predicate Inv(w: World) {
    Unlockable(w.account) && FreshCache(w) && Consistent(w.session)
  }

  /** Completing a recovery must not leave another password's master key cached. */
  ghost predicate Permitted(w: World, e: Event) {
    e.CompleteRecovery? && e.written && e.uploaded && w.session.recoveryPending ==>
      w.session.mk == None || w.session.mk == Some(MasterKey(e.newPassword, e.newSalt))
  }

  ghost predicate PermittedRun(w: World, events: seq<Event>)
    decreases |events|
  {
    events == [] || (Permitted(w, events[0]) && PermittedRun(Perform(w, events[0]).0, events[1..]))
  }

  lemma WrappedOpens(mk: MasterKey, svk: Svk, userId: Uuid)
    ensures UnwrapSvk(mk, userId, WrapSvk(mk, svk)) == Some(svk)
  {
  }

  lemma OnlyTheRightPassword(a: Account, password: string, userId: Uuid)
    requires Unlockable(a) && UnwrapSvk(MasterKey(password, a.salt), userId, a.blob).Some?
    ensures password == a.password
  {
    var unwrapped := UnwrapSvk(CurrentKey(a), userId, a.blob);
    assert unwrapped.Some?;
  }

  lemma PerformKeepsInv(w: World, e: Event)
    requires Inv(w) && Permitted(w, e)
    ensures Inv(Perform(w, e).0)
  {
    match e {
      case UnlockWithPassword(password, userId, _, declared) =>
        if UnwrapSvk(MasterKey(password, w.account.salt), userId, w.account.blob).Some? {
          OnlyTheRightPassword(w.account, password, userId);
        }
      case RotateKey(newSvk, _, _, _) =>
        if !RotationRefused(w.session) {
          forall userId
            ensures UnwrapSvk(w.session.mk.value, userId, WrapSvk(w.session.mk.value, newSvk)).Some?
          {
            WrappedOpens(w.session.mk.value, newSvk, userId);
          }
        }
      case CompleteRecovery(password, salt, _, _, _, _) =>
        forall userId, svk
          ensures UnwrapSvk(MasterKey(password, salt), userId, WrapSvk(MasterKey(password, salt), svk)).Some?
        {
          WrappedOpens(MasterKey(password, salt), svk, userId);
        }
      case _ =>
    }
  }

  /** Over any run of unlocks, locks, rotations (whatever fails), creations and permitted recoveries,
      the current password opens the blob on the server. */
  lemma {:induction false} PasswordUnlockIsNeverBricked(w: World, events: seq<Event>)
    requires Inv(w) && PermittedRun(w, events)
    ensures Inv(Run(w, events))
    decreases |events|
  {
    if events != [] {
      PerformKeepsInv(w, events[0]);
      PasswordUnlockIsNeverBricked(Perform(w, events[0]).0, events[1..]);
    }
  }

  /** A password unlock succeeds exactly with the current password and a satisfied gate, and then
      activates the key in the blob. */
  lemma PasswordUnlockIff(w: World, e: Event)
    requires Inv(w) && e.UnlockWithPassword?
    ensures var (w', ok) := Perform(w, e);
            && (ok <==> e.password == w.account.password
                        && ((if e.declared.Some? then e.declared.value else w.session.factor) == None || w.session.verified))
            && (ok ==> w'.session.svk == Some(w.account.blob.content) && !w'.session.locked
                       && w'.session.mk == Some(CurrentKey(w.account)) && w'.session.localGen == e.gen)
            && (!ok ==> w'.session.(factor := None, verified := false) == w.session.(factor := None, verified := false))
            && w'.account == w.account
  {
    var unwrapped := UnwrapSvk(CurrentKey(w.account), e.userId, w.account.blob);
    assert unwrapped.Some?;
    if UnwrapSvk(MasterKey(e.password, w.account.salt), e.userId, w.account.blob).Some? {
      OnlyTheRightPassword(w.account, e.password, e.userId);
    }
  }

  /** What goes wrong when recovery completes with another password's key cached: a stale cache is
      harmless for every rotation exactly when it is not stale. */
  lemma RotationBricksIffCacheIsStale(w: World)
    requires Unlockable(w.account) && !RotationRefused(w.session)
    ensures FreshCache(w) <==>
            forall newSvk, newGen | w.account.minGen < newGen ::
              Unlockable(Perform(w, RotateKey(newSvk, newGen, Confirmed, true)).0.account)
  {
    var mk := w.session.mk.value;
    if FreshCache(w) {
      forall newSvk, newGen | w.account.minGen < newGen
        ensures Unlockable(Perform(w, RotateKey(newSvk, newGen, Confirmed, true)).0.account)
      {
        forall userId
          ensures UnwrapSvk(mk, userId, WrapSvk(mk, newSvk)).Some?
        {
          WrappedOpens(mk, newSvk, userId);
        }
      }
    } else {
      var newSvk, newGen := Svk(0), w.account.minGen + 1;
      var a := Perform(w, RotateKey(newSvk, newGen, Confirmed, true)).0.account;
      assert CurrentKey(a) == CurrentKey(w.account) && UnwrapSvk(CurrentKey(a), NIL_UUID, a.blob).None?;
      assert !Unlockable(a);
    }
  }

  /** Completing a recovery keeps the promise exactly when it is permitted. */
  lemma RecoveryKeepsInvIff(w: World, e: Event)
    requires Inv(w) && e.CompleteRecovery? && e.written && e.uploaded && w.session.recoveryPending && w.session.svk.Some?
    ensures Inv(Perform(w, e).0) <==> Permitted(w, e)
  {
    if Permitted(w, e) {
      PerformKeepsInv(w, e);
    }
  }

  /** Recovery discipline a caller can follow: enter recovery only from a locked vault, and do not
      unlock with a password until it is completed. */
  ghost predicate Disciplined(w: World, events: seq<Event>)
    decreases |events|
  {
    events == [] ||
    (&& (events[0].RecoverWithKey? ==> w.session.locked)
     && (events[0].UnlockWithPassword? ==> !w.session.recoveryPending)
     && Disciplined(Perform(w, events[0]).0, events[1..]))
  }

  ghost predicate PendingHasNoCache(w: World) {
    w.session.recoveryPending ==> w.session.mk == None
  }

  lemma {:induction false} DisciplinedRunsArePermitted(w: World, events: seq<Event>)
    requires Consistent(w.session) && PendingHasNoCache(w) && Disciplined(w, events)
    ensures PermittedRun(w, events)
    decreases |events|
  {
    if events != [] {
      var w' := Perform(w, events[0]).0;
      assert Consistent(w'.session) && PendingHasNoCache(w');
      DisciplinedRunsArePermitted(w', events[1..]);
    }
  }

  /** After a successful rotation the blob holds the active key exactly when the requested
      generation was ahead of the account's; otherwise the server kept the old blob. */
  lemma BlobMatchesActiveKeyIff(w: World, e: Event)
    requires e.RotateKey? && Perform(w, e).1 && w.account.blob.content != e.newSvk
    ensures var w' := Perform(w, e).0;
            && w'.session.svk == Some(e.newSvk) && w'.session.localGen == w'.account.minGen
            && w'.account.minGen == (if w.account.minGen < e.newGen then e.newGen else w.account.minGen)
            && (w'.account.blob.content == e.newSvk <==> w.account.minGen < e.newGen)
  {
  }

  /** The whole cycle: rotate, lock, unlock with the password. */
  lemma RotateLockUnlock(w: World, r: Event, u: Event)
    requires Inv(w) && r.RotateKey? && Perform(w, r).1 && w.account.blob.content != r.newSvk
    requires u.UnlockWithPassword? && u.password == w.account.password
    requires u.declared == None || u.declared == Some(None)
    ensures var active := Perform(w, r).0.session.svk;
            var (w', ok) := Perform(Perform(Perform(w, r).0, Lock).0, u);
            ok && (w'.session.svk == active <==> w.account.minGen < r.newGen)
  {
    var w1 := Perform(w, r).0;
    PerformKeepsInv(w, r);
    PerformKeepsInv(w1, Lock);
    PasswordUnlockIff(Perform(w1, Lock).0, u);
    BlobMatchesActiveKeyIff(w, r);
  }

  /** The account half of the full rotation is the rotation event of this machine. */
  lemma RotationAgrees(st: State, a: Account, q: Request, listing: seq<Listed>, weather: Weather, finished: bool)
    requires a.minGen == st.remote.table.minGen && a.blob == st.remote.table.blob
    ensures var t := RotationMeaning.Rotate(st, q, listing, weather).0.remote.table;
            var a' := Advance(a, q.mk, RotateKey(q.newSvk, q.newGen, weather.account, finished));
            t.minGen == a'.minGen && t.blob == a'.blob
  {
    if weather.account == Confirmed {
      var st1 := WithTable(st, AccountTable(st.remote.table, q, weather.account));
      BatchesAccount(st1, KeysOf(st.remote.table, q), listing, 0, weather.env);
    }
  }

  // ------------------------------------------------------------------- the recovery key

  /** A rotation whose new blob reaches the server; the recovery blob is left as it was. */
  ghost predicate ReplacesBlob(w: World, e: Event) {
    && e.RotateKey? && !RotationRefused(w.session) && w.account.minGen < e.newGen
    && (e.delivery == Confirmed || e.delivery == ReplyLost)
  }

  ghost predicate ReplacesBothBlobs(w: World, e: Event) {
    e.CompleteRecovery? && e.written && e.uploaded && w.session.recoveryPending && w.session.svk.Some?
  }

  /** Has the blob been replaced without the recovery blob, given whether it had been before? */
  ghost predicate LeftBehind(w: World, events: seq<Event>, already: bool)
    decreases |events|
  {
    if events == [] then already
    else
      var now := if ReplacesBlob(w, events[0]) then true
                 else if ReplacesBothBlobs(w, events[0]) then false else already;
      LeftBehind(Perform(w, events[0]).0, events[1..], now)
  }

  /** Rotations draw keys that the recovery blob does not hold. */
  ghost predicate DrawsFreshKeys(w: World, events: seq<Event>)
    decreases |events|
  {
    events == [] ||
    (&& (ReplacesBlob(w, events[0]) ==> events[0].newSvk != w.account.recoveryBlob.content)
     && DrawsFreshKeys(Perform(w, events[0]).0, events[1..]))
  }

  ghost predicate BlobsAgree(a: Account) {
    a.recoveryBlob.content == a.blob.content
  }

  /** Over any run the recovery key leads to the key the password leads to exactly when no rotation
      has replaced the blob since both were last written together. */
  lemma {:induction false} RecoveryIsCurrentIff(w: World, events: seq<Event>)
    requires DrawsFreshKeys(w, events)
    ensures BlobsAgree(Run(w, events).account) <==> !LeftBehind(w, events, !BlobsAgree(w.account))
    decreases |events|
  {
    if events != [] {
      var e, w' := events[0], Perform(w, events[0]).0;
      assert BlobsAgree(w'.account) <==>
             (ReplacesBothBlobs(w, e) || (!ReplacesBlob(w, e) && BlobsAgree(w.account)));
      RecoveryIsCurrentIff(w', events[1..]);
    }
  }

  /** Uploading both blobs completes a round trip: from a locked vault the new password and the new
      recovery key each bring back the key that was active. */
  lemma RecoveryRoundTrip(w: World, e: Event, u: Event)
    requires ReplacesBothBlobs(w, e)
    requires u.UnlockWithPassword? && u.password == e.newPassword && u.declared == Some(None)
    ensures var w1 := Perform(Perform(w, e).0, Lock).0;
            var (w2, byPassword) := Perform(w1, u);
            var (w3, byRecovery) := Perform(w1, RecoverWithKey(e.newMnemonic, e.owner));
            && byPassword && w2.session.svk == w.session.svk
            && byRecovery && w3.session.svk == w.session.svk && w3.session.recoveryPending
            && !Perform(Perform(w, e).0, e).1
  {
    WrappedOpens(MasterKey(e.newPassword, e.newSalt), w.session.svk.value, u.userId);
  }

  /** Recovering after a rotation activates the key from before it, and completing that recovery
      gives the account this old key under the new password: what the rotation moved is lost. */
  lemma RecoveryAfterRotationGoesBack(w: World, r: Event, mnemonic: nat, owner: Uuid, c: Event, u: Uuid, gen: nat, plain: string)
    requires ReplacesBlob(w, r) && r.newSvk != w.account.recoveryBlob.content
    requires w.account.recoveryBlob.key == RecoveryKek(mnemonic) && w.account.recoveryBlob.ad == owner && w.account.recoveryBlob.gen == 0
    requires c.CompleteRecovery? && c.written && c.uploaded
    ensures var w1 := Perform(Perform(w, r).0, Lock).0;
            var (w2, ok) := Perform(w1, RecoverWithKey(mnemonic, owner));
            var (w3, done) := Perform(w2, c);
            && ok && done
            && w2.session.svk == Some(w.account.recoveryBlob.content)
            && w3.account.blob.content == w.account.recoveryBlob.content
            && Open(w2.session.dek.value, u, gen, Sealed(Dek(r.newSvk), u, gen, plain)) == None
  {
  }

  // ------------------------------------------------------------------- second factor

  /** Events that clear the verified mark. */
  predicate Resets(e: Event) {
    match e
    case Lock => true
    case ResetFactor => true
    case SetFactor(m) => m == None
    case UnlockWithPassword(_, _, _, declared) => declared == Some(None)
    case _ => false
  }

  ghost predicate VerifiedSinceReset(events: seq<Event>) {
    exists i :: 0 <= i < |events| && events[i] == VerifyFactor && forall j | i < j < |events| :: !Resets(events[j])
  }

  lemma VerifiedStep(w: World, e: Event)
    ensures Perform(w, e).0.session.verified
       <==> e == VerifyFactor || (w.session.verified && !Resets(e))
  {
  }

  /** The verified mark is set exactly when a verification came after the last event that clears it. */
  lemma {:induction false} VerifiedIff(w: World, events: seq<Event>)
    ensures Run(w, events).session.verified
       <==> VerifiedSinceReset(events) || (w.session.verified && forall i | 0 <= i < |events| :: !Resets(events[i]))
    decreases |events|
  {
    if events != [] {
      var w', rest := Perform(w, events[0]).0, events[1..];
      VerifiedStep(w, events[0]);
      VerifiedIff(w', rest);
      assert forall i | 0 <= i < |rest| :: rest[i] == events[i + 1];
      if VerifiedSinceReset(rest) {
        var i :| 0 <= i < |rest| && rest[i] == VerifyFactor && forall j | i < j < |rest| :: !Resets(rest[j]);
        assert events[i + 1] == VerifyFactor && forall j | i + 1 < j < |events| :: events[j] == rest[j - 1];
      }
      if VerifiedSinceReset(events) {
        var i :| 0 <= i < |events| && events[i] == VerifyFactor && forall j | i < j < |events| :: !Resets(events[j]);
        if i > 0 {
          assert rest[i - 1] == VerifyFactor;
        }
      }
      assert (forall i | 0 <= i < |events| :: !Resets(events[i])) <==>
             !Resets(events[0]) && forall i | 0 <= i < |rest| :: !Resets(rest[i]);
    }
  }

  /** Whenever a password unlock succeeds while a factor is required, a verification happened after
      the most recent lock, reset or clearing. */
  lemma UnlockNeedsVerification(w: World, events: seq<Event>, e: Event)
    requires !w.session.verified && e.UnlockWithPassword?
    requires Perform(Run(w, events), e).1 && RequiredAfter(w.session.factor, events + [e]).Some?
    ensures VerifiedSinceReset(events) && !Resets(e)
  {
    VerifiedIff(w, events);
    RequiredFromHistory(w, events + [e]);
    RunLast(w, events + [e]);
    assert (events + [e])[..|events|] == events;
  }

  /** What an event says about the required factor, if anything. */
  ghost function Says(e: Event): Option<Option<Method>> {
    match e
    case SetFactor(m) => Some(m)
    case Lock => Some(None)
    case ResetFactor => Some(None)
    case UnlockWithPassword(_, _, _, declared) => declared
    case _ => None
  }

  /** The factor that is required after these events, read off the last of them that says so. */
  ghost function RequiredAfter(before: Option<Method>, events: seq<Event>): Option<Method>
    decreases |events|
  {
    if events == [] then before
    else if Says(events[|events| - 1]).Some? then Says(events[|events| - 1]).value
    else RequiredAfter(before, events[..|events| - 1])
  }

  lemma FactorAfterEvent(w: World, e: Event)
    ensures Perform(w, e).0.session.factor == if Says(e).Some? then Says(e).value else w.session.factor
  {
  }

  lemma {:induction false} RunLast(w: World, events: seq<Event>)
    requires events != []
    ensures Run(w, events) == Perform(Run(w, events[..|events| - 1]), events[|events| - 1]).0
    decreases |events|
  {
    if |events| == 1 {
      assert events[1..] == [] && events[..0] == [];
    } else {
      RunLast(Perform(w, events[0]).0, events[1..]);
      assert events[1..][..|events| - 2] == events[..|events| - 1][1..];
    }
  }

  lemma {:induction false} RequiredFromHistory(w: World, events: seq<Event>)
    ensures Run(w, events).session.factor == RequiredAfter(w.session.factor, events)
    decreases |events|
  {
    if events != [] {
      RunLast(w, events);
      RequiredFromHistory(w, events[..|events| - 1]);
      FactorAfterEvent(Run(w, events[..|events| - 1]), events[|events| - 1]);
    }
  }

  /** The gate, from the history alone: a password unlock succeeds exactly with the current password
      and either no factor required, by the last event that says so or by what this unlock finds
      the server to declare, or a verification since the last event that clears it. */
  lemma UnlockFromHistoryIff(w: World, events: seq<Event>, e: Event)
    requires Inv(w) && PermittedRun(w, events) && !w.session.verified && e.UnlockWithPassword?
    ensures var need := if e.declared.Some? then e.declared.value else RequiredAfter(w.session.factor, events);
            Perform(Run(w, events), e).1
            <==> e.password == Run(w, events).account.password && (need == None || VerifiedSinceReset(events))
  {
    PasswordUnlockIsNeverBricked(w, events);
    PasswordUnlockIff(Run(w, events), e);
    RequiredFromHistory(w, events);
    VerifiedIff(w, events);
  }

  // ------------------------------------------------------------------- ways in

  /** Every way in activates its own key and the item key that goes with it. */
  lemma EveryWayInActivatesItsKey(w: World, e: Event)
    requires Perform(w, e).1 && (e.UnlockWithRawKey? || e.CreateVault? || e.RecoverWithKey?)
    ensures var s := Perform(w, e).0.session;
            var key := match e
                       case UnlockWithRawKey(raw, _) => raw
                       case CreateVault(generated) => generated
                       case _ => w.account.recoveryBlob.content;
            && !s.locked && s.svk == Some(key) && s.dek == Some(Dek(key))
            && (e.UnlockWithRawKey? ==> s.mk == None && s.localGen == e.gen)
            && (!e.UnlockWithRawKey? ==> s.mk == w.session.mk)
            && (s.recoveryPending <==> e.RecoverWithKey? || w.session.recoveryPending)
            && Perform(w, e).0.account == w.account
  {
  }

  /** An operation that fails leaves the keys as they were; only a rotation that reached the server
      leaves a mark on the account, and only an unlock one on the factor. */
  lemma FailureLeavesTheKeys(w: World, e: Event)
    requires !Perform(w, e).1
    ensures var w' := Perform(w, e).0;
            && (e.RotateKey? || w'.account == w.account)
            && (e.UnlockWithPassword? || w'.session == w.session)
            && w'.session.(factor := w.session.factor, verified := w.session.verified) == w.session
            && w'.account.(minGen := w.account.minGen, blob := w.account.blob) == w.account
  {
  }

  /** The recovery key works exactly on its own blob, bound to the user or to nobody. */
  lemma RecoverIff(w: World, mnemonic: nat, userId: Uuid)
    ensures Perform(w, RecoverWithKey(mnemonic, userId)).1
       <==> var box := w.account.recoveryBlob;
            box.key == RecoveryKek(mnemonic) && box.gen == 0 && box.ad in {userId, NIL_UUID}
  {
  }

  lemma {:induction false} NoKeyIsCachedWithoutThePassword(w: World, events: seq<Event>)
    requires w.session.mk == None && forall e | e in events :: !e.UnlockWithPassword?
    ensures Run(w, events).session.mk == None
    decreases |events|
  {
    if events != [] {
      assert events[0] in events && forall e | e in events[1..] :: e in events;
      NoKeyIsCachedWithoutThePassword(Perform(w, events[0]).0, events[1..]);
    }
  }

  /** A session opened with a raw key refuses to rotate until the password has been used. */
  lemma RawKeySessionCannotRotate(w: World, raw: Svk, gen: nat, events: seq<Event>, r: Event)
    requires r.RotateKey? && forall e | e in events :: !e.UnlockWithPassword?
    ensures var v := Run(Perform(w, UnlockWithRawKey(raw, gen)).0, events); Perform(v, r) == (v, false)
  {
    NoKeyIsCachedWithoutThePassword(Perform(w, UnlockWithRawKey(raw, gen)).0, events);
  }

  /** The whole accident: an open password session recovers, completes with another password, and the
      next rotation leaves a blob that the new password does not open. */
  lemma RecoveryOverAnOpenSessionBricks(w: World, mnemonic: nat, owner: Uuid, c: Event, r: Event)
    requires Inv(w) && !w.session.locked && w.session.mk.Some?
    requires Perform(w, RecoverWithKey(mnemonic, owner)).1
    requires c.CompleteRecovery? && c.written && c.uploaded && MasterKey(c.newPassword, c.newSalt) != CurrentKey(w.account)
    requires r.RotateKey? && r.delivery == Confirmed && r.finished && r.newGen > w.account.minGen
    ensures var w1 := Perform(w, RecoverWithKey(mnemonic, owner)).0;
            var (w2, completed) := Perform(w1, c);
            var (w3, rotated) := Perform(w2, r);
            completed && rotated && !Unlockable(w3.account)
  {
    var w1 := Perform(w, RecoverWithKey(mnemonic, owner)).0;
    var w3 := Perform(Perform(w1, c).0, r).0;
    assert UnwrapSvk(CurrentKey(w3.account), NIL_UUID, w3.account.blob) == None;
  }

  // ------------------------------------------------------------------- the running code

  /** The key fields of the client, each operation proved to be its step of the machine above. */
  class VaultSession {
    var locked: bool
    var mk: Option<MasterKey>
    var svk: Option<Svk>
    var dek: Option<Key>
    var localGen: nat
    var factor: Option<Method>
    var verified: bool
    var recoveryPending: bool

    constructor ()
      ensures State() == Session(true, None, None, None, 1, None, false, false)
    {
      locked, mk, svk, dek, localGen := true, None, None, None, 1;
      factor, verified, recoveryPending := None, false, false;
    }

    ghost function State(): Session
      reads this
    {
      Session(locked, mk, svk, dek, localGen, factor, verified, recoveryPending)
    }

    method SetSecondFactorMethod(m: Option<Method>)
      modifies this
      ensures State() == WithFactor(old(State()), m)
    {
      factor := m;
      if m.None? {
        verified := false;
      }
    }

    method UnlockWithPassword(password: string, userId: Uuid, gen: nat, declared: Option<Option<Method>>, account: Account)
      returns (ok: bool)
      modifies this
      ensures (World(State(), account), ok)
           == Perform(World(old(State()), account), Event.UnlockWithPassword(password, userId, gen, declared))
    {
      if declared.Some? {
        SetSecondFactorMethod(declared.value);
      }
      if factor.Some? && !verified {
        return false;
      }
      var key := MasterKey(password, account.salt);
      var unwrapped := UnwrapSvk(key, userId, account.blob);
      if unwrapped.None? {
        return false;
      }
      svk, dek, mk := Some(unwrapped.value), Some(Dek(unwrapped.value)), Some(key);
      localGen, locked := gen, false;
      ok := true;
    }

    method UnlockWithRawKey(raw: Svk, gen: nat, ghost account: Account)
      modifies this
      ensures World(State(), account) == Perform(World(old(State()), account), Event.UnlockWithRawKey(raw, gen)).0
    {
      svk, dek, mk := Some(raw), Some(Dek(raw)), None;
      localGen, locked := gen, false;
    }

    method LockVault(ghost account: Account)
      modifies this
      ensures World(State(), account) == Perform(World(old(State()), account), Lock).0
      ensures svk == None && dek == None && mk == None && locked
    {
      svk := None;
      dek := None;
      mk := None;
      locked := true;
      factor, verified := None, false;
    }

    method RecoverWithKey(mnemonic: nat, userId: Uuid, account: Account) returns (ok: bool)
      modifies this
      ensures (World(State(), account), ok)
           == Perform(World(old(State()), account), Event.RecoverWithKey(mnemonic, userId))
    {
      var unwrapped := Open(RecoveryKek(mnemonic), userId, 0, account.recoveryBlob);
      if unwrapped.None? {
        unwrapped := Open(RecoveryKek(mnemonic), NIL_UUID, 0, account.recoveryBlob);
      }
      if unwrapped.None? {
        return false;
      }
      svk, dek := Some(unwrapped.value), Some(Dek(unwrapped.value));
      locked, recoveryPending := false, true;
      ok := true;
    }

    /** Returns the two blobs the caller must upload. */
    method CompleteRecovery(password: string, salt: nat, mnemonic: nat, owner: Uuid, written: bool, ghost account: Account)
      returns (blobs: Option<(WrappedSvk, WrappedSvk)>)
      modifies this
      ensures var (w, ok) := Perform(World(old(State()), account),
                                     Event.CompleteRecovery(password, salt, mnemonic, owner, written, true));
              && State() == w.session
              && (blobs.Some? <==> ok)
              && (ok ==> w.account == account.(password := password, salt := salt,
                                               blob := blobs.value.0, recoveryBlob := blobs.value.1))
    {
      if !recoveryPending || svk.None? || !written {
        return None;
      }
      blobs := Some((WrapSvk(MasterKey(password, salt), svk.value), Sealed(RecoveryKek(mnemonic), owner, 0, svk.value)));
      recoveryPending := false;
    }
  }
}
