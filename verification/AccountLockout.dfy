/** One account's backup, its lockout and its restore, under everything the directory may be asked to serve. */
module AccountLockout {
  import opened Base
  import opened Directory
  import Handles
  import Lockout

  const BLANK_ROW := Lockout.Row([], [], 0, None)

  predicate Uploads(d: Tables, r: Request, now: int, u: UserId) {
    r.PutBackup? && SessionUser(d, r.session, now) == Some(u) && ValidUpload(r.upload)
  }

  /** What a request does to an account's backups row. */
  ghost function EventOf(d: Tables, r: Request, now: int, u: UserId): Option<Lockout.Event> {
    if Uploads(d, r, now, u) then Some(Lockout.Uploaded(r.upload.authPin, r.upload.authPhrase, now))
    else if r.RestoreComplete? && RestoreUser(d, r.restore, now) == Some(u) && |r.auth| == 32 && u in d.backups
    then Some(Lockout.Tried(r.auth, r.isPin, now))
    else None
  }

  /** The life of the row an account has now: it began with an upload, and an erasure ends it. */
  ghost function RowEvents(rs: seq<(Request, int)>, u: UserId): seq<Lockout.Event> {
    if rs == [] || u !in After(rs).backups then []
    else
      var before := rs[..|rs| - 1];
      match EventOf(After(before), rs[|rs| - 1].0, rs[|rs| - 1].1, u)
      case Some(e) => RowEvents(before, u) + [e]
      case None => RowEvents(before, u)
  }

  /** Requests other than uploads and attempts leave the row alone or remove it. */
  lemma OtherRequestRow(d: Tables, caller: UserId, r: Request, now: int, u: UserId)
    requires !r.Signup? && !r.VerifyPhone? && !r.RestoreBegin? && !r.RestoreComplete? && !r.PutBackup?
    requires u in HandleAccount(d, caller, r, now).0.backups
    ensures u in d.backups && HandleAccount(d, caller, r, now).0.backups[u] == d.backups[u]
  {
    hide Handles.Assign, Handles.ValidateNickname, Handles.FormatHandle, Taken;
  }

  ghost predicate RowStep(d: Tables, t: Tables, e: Option<Lockout.Event>, u: UserId) {
    u in t.backups ==>
      match e
      case Some(Uploaded(p, f, at)) => RowOf(t.backups[u]) == Lockout.Row(p, f, 0, None)
      case Some(Tried(_, _, _)) =>
        && u in d.backups && t.backups[u].bundle == d.backups[u].bundle
        && RowOf(t.backups[u]) == Lockout.Apply(RowOf(d.backups[u]), e.value)
      case None => u in d.backups && t.backups[u] == d.backups[u]
  }

  lemma PhoneRequestsSpareRows(d: Tables, hash: string, issued: Token, restore: Token, now: int)
    ensures HandleSignup(d, hash, now).0.backups == d.backups
    ensures HandleVerify(d, hash, issued, now).0.backups == d.backups
    ensures HandleRestoreBegin(d, hash, issued, restore, now).0.backups == d.backups
  {
    CreationSparesRows(d, hash);
    hide InCooldown, PhoneUser, FindOrCreate;
  }

  lemma CreationSparesRows(d: Tables, hash: string)
    ensures FindOrCreate(d, hash).0.backups == d.backups
  {
    hide PhoneUser;
  }

  lemma VerifyKeepsHashes(r: Lockout.Row, auth: Bytes, isPin: bool, now: int)
    ensures Lockout.Verify(r, auth, isPin, now).0.pinHash == r.pinHash
    ensures Lockout.Verify(r, auth, isPin, now).0.phraseHash == r.phraseHash
  {
  }

  lemma AttemptRow(d: Tables, r: Request, now: int, u: UserId)
    requires r.RestoreComplete?
    ensures RowStep(d, Serve(d, r, now).0, EventOf(d, r, now, u), u)
  {
    hide Lockout.Apply;
    assert Serve(d, r, now) == HandleRestoreComplete(d, r.restore, r.auth, r.isPin, now);
    hide HandleRestoreComplete, Serve, RestoreUser, SessionUser, RowOf, CheckBackup;
    CompleteRows(d, r.restore, r.auth, r.isPin, now);
    if RestoreUser(d, r.restore, now).Some? {
      CheckRow(d, RestoreUser(d, r.restore, now).value, r.auth, r.isPin, now, u);
    }
  }

  /** A check of one account's row applies the attempt to it and leaves every other row alone. */
  lemma CheckRow(d: Tables, user: UserId, auth: Bytes, isPin: bool, now: int, u: UserId)
    ensures
      var t := CheckBackup(d, user, auth, isPin, now).0;
      && (u in t.backups <==> u in d.backups)
      && (u in d.backups && u != user ==> t.backups[u] == d.backups[u])
      && (u in d.backups && u == user ==>
            && t.backups[u].bundle == d.backups[u].bundle
            && RowOf(t.backups[u]) == Lockout.Apply(RowOf(d.backups[u]), Lockout.Tried(auth, isPin, now)))
  {
    if user in d.backups {
      VerifyKeepsHashes(RowOf(d.backups[user]), auth, isPin, now);
    }
    hide Lockout.Verify;
  }

  /** What an attempt does to the backups table: the check of one row, if it comes to that. */
  lemma CompleteRows(d: Tables, restore: Token, auth: Bytes, isPin: bool, now: int)
    ensures
      var user := RestoreUser(d, restore, now);
      HandleRestoreComplete(d, restore, auth, isPin, now).0.backups ==
      if user.Some? && |auth| == 32 then CheckBackup(d, user.value, auth, isPin, now).0.backups else d.backups
  {
    hide CheckBackup;
  }

  lemma ServeRow(d: Tables, r: Request, now: int, u: UserId)
    ensures RowStep(d, Serve(d, r, now).0, EventOf(d, r, now, u), u)
  {
    hide HandleSignup, HandleVerify, HandleRestoreBegin, HandleRestoreComplete, Lockout.Apply;
    match r
    case Signup(hash) => PhoneRequestsSpareRows(d, hash, "", "", now);
    case VerifyPhone(hash, issued) => PhoneRequestsSpareRows(d, hash, issued, "", now);
    case RestoreBegin(hash, issued, restore) => PhoneRequestsSpareRows(d, hash, issued, restore, now);
    case RestoreComplete(_, _, _) => AttemptRow(d, r, now, u);
    case PutBackup(_, _) =>
    case _ =>
      hide HandleAccount;
      var caller := SessionUser(d, r.session, now);
      if caller.Some? && u in HandleAccount(d, caller.value, r, now).0.backups {
        OtherRequestRow(d, caller.value, r, now, u);
      }
  }

  /** The row is what its events make of it, whatever else was served in between. */
  lemma {:induction false} RowIsItsEvents(rs: seq<(Request, int)>, u: UserId)
    requires u in After(rs).backups
    ensures RowEvents(rs, u) != [] && RowEvents(rs, u)[0].Uploaded?
    ensures RowOf(After(rs).backups[u]) == Lockout.After(BLANK_ROW, RowEvents(rs, u))
  {
    hide Serve, EventOf, RowOf, Lockout.Apply, Lockout.After;
    var before := rs[..|rs| - 1];
    var d := After(before);
    var (r, now) := rs[|rs| - 1];
    ServeRow(d, r, now, u);
    if u in d.backups {
      RowIsItsEvents(before, u);
    }
    var e := EventOf(d, r, now, u);
    if e.Some? {
      AfterSnoc(RowEvents(before, u), e.value);
    }
  }

  lemma AfterSnoc(events: seq<Lockout.Event>, e: Lockout.Event)
    ensures Lockout.After(BLANK_ROW, events + [e]) == Lockout.Apply(Lockout.After(BLANK_ROW, events), e)
    ensures e.Uploaded? ==> Lockout.After(BLANK_ROW, events + [e]) == Lockout.Row(e.pinHash, e.phraseHash, 0, None)
  {
    hide Lockout.Verify;
    assert (events + [e])[..|events|] == events;
  }

  /** In time order, none after `limit`. */
  ghost predicate OnTime(events: seq<Lockout.Event>, limit: int) {
    && (forall i :: 0 <= i < |events| ==> events[i].at <= limit)
    && forall i, j :: 0 <= i < j < |events| ==> events[i].at <= events[j].at
  }

  lemma LaterOnTime(events: seq<Lockout.Event>, e: Lockout.Event, limit: int)
    requires OnTime(events, limit) && limit <= e.at
    ensures OnTime(events + [e], e.at) && OnTime(events, e.at)
  {
  }

  lemma {:induction false} EventsOnTime(rs: seq<(Request, int)>, u: UserId)
    requires Clock(rs) && rs != []
    ensures OnTime(RowEvents(rs, u), rs[|rs| - 1].1)
  {
    hide Serve, After;
    var before := rs[..|rs| - 1];
    var (r, now) := rs[|rs| - 1];
    if before != [] {
      assert before[|before| - 1] == rs[|rs| - 2];
      EventsOnTime(before, u);
      LaterOnTime(RowEvents(before, u), Lockout.Tried([], true, now), before[|before| - 1].1);
      var e := EventOf(After(before), r, now, u);
      if e.Some? {
        LaterOnTime(RowEvents(before, u), e.value, before[|before| - 1].1);
      }
    }
  }

  /**
   * Against the served directory: the wrong PIN that follows `k` lockouts of an account, counted since
   * the upload or match that last reset it, comes after those lockouts have been served in full.
   */
  lemma AccountGuessesAreSpaced(rs: seq<(Request, int)>, u: UserId, k: nat)
    requires Clock(rs) && u in After(rs).backups
    requires 10 * k < |Lockout.WrongPins(BLANK_ROW, RowEvents(rs, u))|
    ensures
      var events := RowEvents(rs, u);
      && events != []
      && Lockout.WrongPins(BLANK_ROW, events)[10 * k]
         >= Lockout.LastReset(BLANK_ROW, events[0].at, events) + Lockout.HOUR * Lockout.HoursBefore(k)
      && After(rs).backups[u].attempts == |Lockout.WrongPins(BLANK_ROW, events)|
  {
    RowIsItsEvents(rs, u);
    EventsOnTime(rs, u);
    var events := RowEvents(rs, u);
    Lockout.RunsOnSchedule(BLANK_ROW, events[0].at, events);
    Lockout.GuessesAreSpaced(BLANK_ROW, events[0].at, events, k);
  }

  // ---- the bundle comes back -----------------------------------------------------------------

  predicate Deletes(d: Tables, r: Request, now: int, u: UserId) {
    r.DeleteAccount? && SessionUser(d, r.session, now) == Some(u)
  }

  /** The account's last valid upload, unless it has been erased since. */
  ghost function LastUpload(rs: seq<(Request, int)>, u: UserId): Option<Upload> {
    if rs == [] then None
    else
      var before, last := rs[..|rs| - 1], rs[|rs| - 1];
      if Uploads(After(before), last.0, last.1, u) then Some(last.0.upload)
      else if Deletes(After(before), last.0, last.1, u) then None
      else LastUpload(before, u)
  }

  lemma UploadStores(d: Tables, r: Request, now: int, u: UserId)
    requires Uploads(d, r, now, u)
    ensures u in Serve(d, r, now).0.backups && Serve(d, r, now).0.backups[u].bundle == r.upload
  {
  }

  /** Only an upload of the account's own creates its row, and only its erasure removes it. */
  lemma ServeOwners(d: Tables, r: Request, now: int, u: UserId)
    ensures u in Serve(d, r, now).0.backups <==>
      Uploads(d, r, now, u) || (u in d.backups && !Deletes(d, r, now, u))
  {
    hide HandleSignup, HandleVerify, HandleRestoreBegin, HandleRestoreComplete, ValidUpload;
    match r
    case Signup(hash) => PhoneRequestsSpareRows(d, hash, "", "", now);
    case VerifyPhone(hash, issued) => PhoneRequestsSpareRows(d, hash, issued, "", now);
    case RestoreBegin(hash, issued, restore) => PhoneRequestsSpareRows(d, hash, issued, restore, now);
    case RestoreComplete(restore, auth, isPin) => AttemptOwners(d, restore, auth, isPin, now, u);
    case PutBackup(_, _) =>
    case DeleteAccount(_) =>
    case _ =>
      var caller := SessionUser(d, r.session, now);
      if caller.Some? {
        OtherRequestOwners(d, caller.value, r, now);
      }
      hide HandleAccount;
  }

  lemma AttemptOwners(d: Tables, restore: Token, auth: Bytes, isPin: bool, now: int, u: UserId)
    ensures u in HandleRestoreComplete(d, restore, auth, isPin, now).0.backups <==> u in d.backups
  {
    CompleteRows(d, restore, auth, isPin, now);
    hide HandleRestoreComplete, RestoreUser, CheckBackup;
    if RestoreUser(d, restore, now).Some? {
      CheckRow(d, RestoreUser(d, restore, now).value, auth, isPin, now, u);
    }
  }

  lemma OtherRequestOwners(d: Tables, caller: UserId, r: Request, now: int)
    requires r.ClaimUsername? || r.Searchable? || r.PutBootstrap? || r.GetBootstrap?
    ensures HandleAccount(d, caller, r, now).0.backups == d.backups
  {
    hide Handles.Assign, Handles.ValidateNickname, Handles.FormatHandle, Taken;
  }

  lemma {:induction false} StoredIsLastUpload(rs: seq<(Request, int)>, u: UserId)
    ensures LastUpload(rs, u) == if u in After(rs).backups then Some(After(rs).backups[u].bundle) else None
  {
    hide Serve;
    if rs != [] {
      var before := rs[..|rs| - 1];
      var d := After(before);
      var (r, now) := rs[|rs| - 1];
      ServeOwners(d, r, now, u);
      StoredIsLastUpload(before, u);
      if Uploads(d, r, now, u) {
        UploadStores(d, r, now, u);
      } else {
        ServeRow(d, r, now, u);
      }
    }
  }

  /** The proof is the one the account's bundle asks for, and no lock is in its way. */
  predicate ProofHolds(b: Backup, auth: Bytes, isPin: bool, now: int) {
    if isPin then auth == b.bundle.authPin && !Lockout.LockedAt(RowOf(b), now) else auth == b.bundle.authPhrase
  }

  /**
   * A restore is answered with a bundle exactly if the token stands for an account with a backup and
   * the proof holds; the bundle is then the account's last upload, and the token is spent.
   */
  lemma RestoreReturnsLastUpload(rs: seq<(Request, int)>, restore: Token, auth: Bytes, isPin: bool, now: int)
    ensures
      var d := After(rs);
      var (t, reply) := Serve(d, RestoreComplete(restore, auth, isPin), now);
      var user := RestoreUser(d, restore, now);
      && (reply.Restored? <==>
            user.Some? && user.value in d.backups && |auth| == 32
            && ProofHolds(d.backups[user.value], auth, isPin, now))
      && (reply.Restored? ==>
            && Some(reply.bundle) == LastUpload(rs, user.value)
            && restore !in t.restores && RestoreUser(t, restore, now) == None)
  {
    var d := After(rs);
    var user := RestoreUser(d, restore, now);
    if user.Some? && user.value in d.backups {
      StoredIsLastUpload(rs, user.value);
    }
    hide After, Lockout.Miscount;
  }

  /**
   * Every answer to a restore with a good token, over every run, from the account's history: its last
   * upload and the times of the wrong PINs since its last reset.
   */
  lemma RestoreAnswers(rs: seq<(Request, int)>, u: UserId, restore: Token, auth: Bytes, isPin: bool, now: int)
    requires Clock(rs) && RestoreUser(After(rs), restore, now) == Some(u) && u in After(rs).backups && |auth| == 32
    ensures LastUpload(rs, u).Some?
    ensures
      var up, wrong := LastUpload(rs, u).value, Lockout.WrongPins(BLANK_ROW, RowEvents(rs, u));
      var n, lock := |wrong| + 1, Lockout.LockEnd(wrong);
      Serve(After(rs), RestoreComplete(restore, auth, isPin), now).1 ==
      if isPin && lock.Some? && now < lock.value then LockedFor(lock.value - now)
      else if auth == (if isPin then up.authPin else up.authPhrase) then Restored(up)
      else if !isPin then WrongSecret(None)
      else if n % 10 == 0 then LockedFor(3600 * if n == 10 then 1 else if n == 20 then 4 else 24)
      else WrongSecret(Some(10 - n % 10))
  {
    hide Serve, After, RowEvents, LastUpload, RestoreUser, Clock;
    hide Lockout.After, Lockout.WrongPins, Lockout.LockEnd, Lockout.Verify, Lockout.Clock, Lockout.Fresh;
    RowIsItsEvents(rs, u);
    StoredIsLastUpload(rs, u);
    EventsClock(rs, u);
    var d, events := After(rs), RowEvents(rs, u);
    Lockout.AnswerIsExact(BLANK_ROW, events[0].at, events, auth, isPin, now);
    ReplyTellsVerdict(d, u, restore, auth, isPin, now);
  }

  lemma EventsClock(rs: seq<(Request, int)>, u: UserId)
    requires Clock(rs) && RowEvents(rs, u) != []
    ensures Lockout.Fresh(BLANK_ROW) && Lockout.Clock(RowEvents(rs, u)[0].at, RowEvents(rs, u))
  {
    assert rs != [];
    EventsOnTime(rs, u);
    hide RowEvents;
  }

  /** The reply says what the check of the row came to. */
  lemma ReplyTellsVerdict(d: Tables, u: UserId, restore: Token, auth: Bytes, isPin: bool, now: int)
    requires RestoreUser(d, restore, now) == Some(u) && u in d.backups && |auth| == 32
    ensures
      var verdict := Lockout.Verify(RowOf(d.backups[u]), auth, isPin, now).1;
      Serve(d, RestoreComplete(restore, auth, isPin), now).1 ==
      match verdict
      case Match => Restored(d.backups[u].bundle)
      case WrongPin(remaining) => WrongSecret(Some(remaining))
      case WrongPhrase => WrongSecret(None)
      case Locked(until) => LockedFor(if until - now > 1 then until - now else 1)
  {
    hide Lockout.Verify, RestoreUser;
  }
}
