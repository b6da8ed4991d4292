/** The directory store: tables updated in place by one method per store operation and per request. */
module DirectoryStore {
  import opened Base
  import opened Handles
  import opened Directory
  import Accounts
  import Lockout

  /** One search result. */
  datatype Hit = Hit(user: UserId, handle: string, searchHash: string)

  /** A live opted-in account of the bucket, with its search hash and a handle that parses to its own. */
  predicate IsHit(users: Users, prefix: string, h: Hit) {
    && InBucket(users, h.user, prefix) && h.searchHash == users[h.user].searchHash
    && users[h.user].handle.Some?
    && ParseHandle(h.handle) == Some((users[h.user].handle.value.nickname, users[h.user].handle.value.discriminator))
  }

  function Found(hits: seq<Hit>): set<UserId> {
    set h | h in hits :: h.user
  }

  lemma FoundSnoc(hits: seq<Hit>, h: Hit)
    ensures Found(hits + [h]) == Found(hits) + {h.user}
  {
    assert h in hits + [h];
    forall k | k in hits
      ensures k in hits + [h]
    {
    }
  }

  class Store {
    var nextId: UserId
    var users: Users
    var widths: map<string, nat>
    var cooldown: seq<(string, int)>
    var sessions: map<Token, (UserId, int)>
    var bootstrap: map<UserId, string>
    var backups: map<UserId, Backup>
    var restores: map<Token, (UserId, int)>

    ghost function View(): Tables
      reads this
    {
      Tables(nextId, users, widths, cooldown, sessions, bootstrap, backups, restores)
    }

    /** The tables obey what the run theorems promise; the clock is at `now`. */
    ghost predicate Valid(now: int)
      reads this
    {
      Accounts.Inv(View(), now)
    }

    constructor ()
      ensures View() == EMPTY && forall now :: Valid(now)
    {
      nextId, users, widths, cooldown := 0, map[], map[], [];
      sessions, bootstrap, backups, restores := map[], map[], map[], map[];
    }

    // ---- queries -----------------------------------------------------------------------------

    method IsPhoneInCooldown(hash: string, now: int) returns (yes: bool)
      ensures yes == InCooldown(View(), hash, now)
    {
      for i := 0 to |cooldown|
        invariant forall j :: 0 <= j < i ==> !(cooldown[j].0 == hash && cooldown[j].1 > now - COOLDOWN)
      {
        if cooldown[i].0 == hash && cooldown[i].1 > now - COOLDOWN {
          return true;
        }
      }
      return false;
    }

    method FindUserByPhoneHash(hash: string) returns (user: Option<UserId>)
      requires Accounts.RowsOk(users, nextId)
      ensures user == PhoneUser(users, hash)
    {
      if u :| u in users && HasPhone(users, u, hash) {
        return Some(u);
      }
      return None;
    }

    /** The holder of a handle, if a live account has it. */
    method FindUserByHandle(nickname: string, discriminator: nat) returns (user: Option<UserId>)
      ensures user.Some? ==> HasHandle(users, user.value, nickname, discriminator)
      ensures user.None? ==> forall u :: !HasHandle(users, u, nickname, discriminator)
    {
      if u :| u in users && HasHandle(users, u, nickname, discriminator) {
        return Some(u);
      }
      return None;
    }

    /** The handle as it is shown now: the nickname's current width in digits, and it reads back as the user's own. */
    method HandleFor(u: UserId) returns (handle: Option<string>)
      requires Accounts.HandlesOk(users, widths)
      ensures handle.Some? <==> u in users && users[u].handle.Some?
      ensures handle.Some? ==>
        var h := users[u].handle.value;
        && h.nickname in widths && |handle.value| == |h.nickname| + 1 + widths[h.nickname]
        && ParseHandle(handle.value) == Some((h.nickname, h.discriminator))
    {
      if u !in users || users[u].handle.None? {
        return None;
      }
      var h := users[u].handle.value;
      var width := if h.nickname in widths then widths[h.nickname] else MIN_WIDTH;
      assert Accounts.HandleFits(widths, h);
      Accounts.FitsAnInt(View(), u);
      HandleRoundTrip(h.nickname, h.discriminator, width);
      RenderedWidth(h.discriminator, width);
      return Some(FormatHandle(h.nickname, h.discriminator, width));
    }

    /** Every account in a search bucket, once each. */
    method Bucket(prefix: string) returns (hits: seq<(string, UserId)>)
      ensures forall u :: InBucket(users, u, prefix) <==> u in users && (users[u].searchHash, u) in hits
      ensures forall i :: 0 <= i < |hits| ==> hits[i].1 in users && hits[i].0 == users[hits[i].1].searchHash
      ensures forall i, j :: 0 <= i < j < |hits| ==> hits[i].1 != hits[j].1
    {
      hits := [];
      var rest := users.Keys;
      while rest != {}
        invariant rest <= users.Keys
        invariant forall i :: 0 <= i < |hits| ==>
          && hits[i].1 in users && hits[i].1 !in rest
          && hits[i].0 == users[hits[i].1].searchHash && InBucket(users, hits[i].1, prefix)
        invariant forall u :: u in users && u !in rest && InBucket(users, u, prefix) ==>
          (users[u].searchHash, u) in hits
        invariant forall i, j :: 0 <= i < j < |hits| ==> hits[i].1 != hits[j].1
        decreases rest
      {
        var u :| u in rest;
        rest := rest - {u};
        if InBucket(users, u, prefix) {
          ghost var before := hits;
          hits := hits + [(users[u].searchHash, u)];
          assert hits[|before|] == (users[u].searchHash, u);
          assert forall h :: h in before ==> h in hits;
        }
      }
    }

    /** The search answer: every account of the bucket that has a handle, under a handle that leads back to it. */
    method Search(session: Token, prefix: string, now: int) returns (hits: seq<Hit>, error: Option<Reply>)
      requires Accounts.HandlesOk(users, widths)
      ensures error.None? <==> SessionUser(View(), session, now).Some? && |prefix| == PREFIX_LEN
      ensures error.Some? ==> hits == []
      ensures error.None? ==> forall u :: InBucket(users, u, prefix) && users[u].handle.Some? ==> u in Found(hits)
      ensures forall i :: 0 <= i < |hits| ==> IsHit(users, prefix, hits[i])
      ensures forall i, j :: 0 <= i < j < |hits| ==> hits[i].user != hits[j].user
    {
      hits := [];
      var caller := SessionUserId(session, now);
      if caller.None? {
        return [], Some(Unauthorized);
      }
      if |prefix| != PREFIX_LEN {
        return [], Some(BadRequest);
      }
      error := None;
      hide IsHit;
      var bucket := Bucket(prefix);
      hits := HitsOf(bucket, prefix);
    }

    /** The bucket's accounts with a handle, in order. */
    method HitsOf(bucket: seq<(string, UserId)>, prefix: string) returns (hits: seq<Hit>)
      requires Accounts.HandlesOk(users, widths)
      requires forall i :: 0 <= i < |bucket| ==>
        InBucket(users, bucket[i].1, prefix) && bucket[i].0 == users[bucket[i].1].searchHash
      requires forall i, j :: 0 <= i < j < |bucket| ==> bucket[i].1 != bucket[j].1
      ensures forall i :: 0 <= i < |hits| ==> IsHit(users, prefix, hits[i])
      ensures forall i, j :: 0 <= i < j < |hits| ==> hits[i].user != hits[j].user
      ensures forall i :: 0 <= i < |bucket| && bucket[i].1 in users && users[bucket[i].1].handle.Some? ==>
        bucket[i].1 in Found(hits)
    {
      hide ParseHandle, HashPrefix, Found, Accounts.HandlesOk;
      hits := [];
      for i := 0 to |bucket|
        invariant forall k :: 0 <= k < |hits| ==> IsHit(users, prefix, hits[k])
        invariant forall k, l :: 0 <= k < |hits| && i <= l < |bucket| ==> hits[k].user != bucket[l].1
        invariant forall k, l :: 0 <= k < l < |hits| ==> hits[k].user != hits[l].user
        invariant forall k :: 0 <= k < i && users[bucket[k].1].handle.Some? ==> bucket[k].1 in Found(hits)
      {
        var (hash, u) := bucket[i];
        var handle := HandleFor(u);
        if handle.Some? {
          FoundSnoc(hits, Hit(u, handle.value, hash));
          hits := hits + [Hit(u, handle.value, hash)];
        }
      }
    }

    // ---- updates -----------------------------------------------------------------------------

    method FindOrCreatePendingUser(hash: string) returns (u: UserId)
      requires Accounts.RowsOk(users, nextId)
      modifies this
      ensures (View(), u) == FindOrCreate(old(View()), hash)
    {
      var found := FindUserByPhoneHash(hash);
      if found.Some? {
        u := found.value;
      } else {
        u := nextId;
        users := users[u := Account(hash, false, false, "", None, None)];
      }
      nextId := nextId + 1;
    }

    method SetVerified(u: UserId)
      modifies this
      ensures View() == MarkVerified(old(View()), u)
    {
      if u in users {
        users := users[u := users[u].(verified := true)];
      }
    }

    /** A token not in use speaks for the account from now on; every other token speaks as before. */
    method CreateSession(t: Token, u: UserId, now: int) returns (ok: bool)
      modifies this
      ensures ok && Live(users, u) ==> SessionUser(View(), t, now) == Some(u)
      ensures forall k, at :: k != t ==> SessionUser(View(), k, at) == SessionUser(old(View()), k, at)
      ensures ok == AddSession(old(View()), t, u, now).Some?
      ensures View() == if ok then AddSession(old(View()), t, u, now).value else old(View())
    {
      if t in sessions {
        return false;
      }
      sessions := sessions[t := (u, now)];
      return true;
    }

    method SessionUserId(t: Token, now: int) returns (user: Option<UserId>)
      ensures user == SessionUser(View(), t, now)
    {
      if t in sessions {
        var (u, createdAt) := sessions[t];
        if createdAt > now - SESSION_TTL && u in users && users[u].deletedAt.None? {
          return Some(u);
        }
      }
      return None;
    }

    method ClaimUsername(u: UserId, nickname: string) returns (r: Option<(nat, nat)>)
      modifies this
      ensures r.Some? == Claim(old(View()), u, nickname).Some?
      ensures r.None? ==> View() == old(View())
      ensures r.Some? ==> (View(), r.value.0, r.value.1) == Claim(old(View()), u, nickname).value
    {
      if ValidateNickname(nickname).Some? {
        return None;
      }
      var width := if nickname in widths then widths[nickname] else MIN_WIDTH;
      var taken := Taken(users, nickname);
      r := AssignSlot(taken, width);
      if r.Some? {
        widths := widths[nickname := r.value.1];
        if u in users {
          users := users[u := users[u].(handle := Some(Handle(nickname, r.value.0)))];
        }
      }
    }

    /** Opting in puts the account into the bucket of its hash and no other, opting out takes it out of all. */
    method SetSearchability(u: UserId, on: bool, hash: Option<string>)
      modifies this
      ensures Live(users, u) ==> forall prefix ::
        InBucket(users, u, prefix) <==> on && prefix == HashPrefix(if hash.Some? then hash.value else "")
      ensures forall v, prefix :: v != u ==> (InBucket(users, v, prefix) <==> InBucket(old(users), v, prefix))
      ensures View() == SetSearchable(old(View()), u, on, hash)
    {
      var stored := if on && hash.Some? then hash.value else "";
      if u in users {
        users := users[u := users[u].(searchable := on, searchHash := stored)];
      }
    }

    /** What is published is what the next request for it gets, once the account can be found. */
    method SetPairingBootstrap(u: UserId, link: string)
      modifies this
      ensures Live(users, u) && users[u].searchable ==> TakeBootstrap(View(), u).1 == Some(link)
      ensures View() == old(View()).(bootstrap := old(bootstrap)[u := link])
    {
      bootstrap := bootstrap[u := link];
    }

    /** Handed out at most once: a second request finds nothing. */
    method ConsumePairingBootstrap(u: UserId) returns (link: Option<string>)
      modifies this
      ensures TakeBootstrap(View(), u) == (View(), None)
      ensures (View(), link) == TakeBootstrap(old(View()), u)
    {
      if u in bootstrap && u in users && users[u].searchable && users[u].deletedAt.None? {
        link := Some(bootstrap[u]);
        bootstrap := bootstrap - {u};
      } else {
        link := None;
      }
    }

    /** Afterwards nothing in the tables leads to the account. */
    method EraseUser(u: UserId, now: int)
      modifies this
      ensures Accounts.Unreachable(View(), u, now)
      ensures View() == Erase(old(View()), u, now)
    {
      if u in users {
        cooldown := cooldown + [(users[u].phoneHash, now)];
        users := users[u := users[u].(phoneHash := "", searchable := false, searchHash := "", verified := false,
                                      deletedAt := Some(now))];
      }
      bootstrap := bootstrap - {u};
      backups := backups - {u};
      sessions := map t | t in sessions && sessions[t].0 != u :: sessions[t];
    }

    /** The uploaded proofs are good at once, whatever was locked before. */
    method UpsertBackup(u: UserId, upload: Upload)
      modifies this
      ensures View() == old(View()).(backups := old(backups)[u := Backup(upload, 0, None)])
      ensures forall now :: CheckBackup(View(), u, upload.authPin, true, now).1 == Some(Lockout.Match)
      ensures forall now :: CheckBackup(View(), u, upload.authPhrase, false, now).1 == Some(Lockout.Match)
    {
      backups := backups[u := Backup(upload, 0, None)];
    }

    method VerifyBackupAuth(u: UserId, auth: Lockout.Bytes, isPin: bool, now: int)
      returns (verdict: Option<Lockout.Verdict>)
      modifies this
      ensures (View(), verdict) == CheckBackup(old(View()), u, auth, isPin, now)
    {
      if u !in backups {
        return None;
      }
      var row, answer := Lockout.CheckAuth(RowOf(backups[u]), auth, isPin, now);
      backups := backups[u := backups[u].(attempts := row.attempts, lockedUntil := row.lockedUntil)];
      return Some(answer);
    }

    method RestoreTokenUser(t: Token, now: int) returns (user: Option<UserId>)
      modifies this
      ensures user == RestoreUser(old(View()), t, now)
      ensures View() == if user.Some? then old(View()) else old(View()).(restores := old(restores) - {t})
    {
      if t in restores && restores[t].1 > now {
        return Some(restores[t].0);
      }
      restores := restores - {t};
      return None;
    }

    // ---- requests ----------------------------------------------------------------------------

    method VerifyRequest(hash: string, issued: Token, now: int) returns (reply: Reply)
      requires Valid(now)
      modifies this
      ensures (View(), reply) == HandleVerify(old(View()), hash, issued, now)
    {
      var cooling := IsPhoneInCooldown(hash, now);
      if cooling {
        return BadRequest;
      }
      var u := FindOrCreatePendingUser(hash);
      SetVerified(u);
      var ok := CreateSession(issued, u, now);
      return if ok then Session(u, issued) else Internal;
    }

    method AccountRequest(u: UserId, r: Request, now: int) returns (reply: Reply)
      requires !r.Signup? && !r.VerifyPhone? && !r.RestoreBegin? && !r.RestoreComplete?
      modifies this
      ensures (View(), reply) == HandleAccount(old(View()), u, r, now)
    {
      match r
      case ClaimUsername(_, nickname) =>
        var slot := ClaimUsername(u, nickname);
        return if slot.Some? then Named(FormatHandle(nickname, slot.value.0, slot.value.1)) else BadRequest;
      case Searchable(_, on, hash) =>
        if on && (hash.None? || !IsDigest(hash.value)) {
          return BadRequest;
        }
        SetSearchability(u, on, if on then hash else None);
        return Accepted;
      case PutBootstrap(_, link) =>
        if Blank(link) {
          return BadRequest;
        }
        SetPairingBootstrap(u, link);
        return Accepted;
      case GetBootstrap(_, target) =>
        var link := ConsumePairingBootstrap(target);
        return if link.Some? then Link(link.value) else NotFound;
      case DeleteAccount(_) =>
        EraseUser(u, now);
        return Accepted;
      case PutBackup(_, upload) =>
        if |upload.saltP| != 16 || |upload.saltF| != 16 || |upload.saltA| != 16 || |upload.saltPA| != 16 {
          return BadRequest;
        }
        if |upload.authPin| != 32 || |upload.authPhrase| != 32 {
          return BadRequest;
        }
        if upload.blob == [] || upload.wPin == [] || upload.wPhrase == [] {
          return BadRequest;
        }
        UpsertBackup(u, upload);
        return Accepted;
    }

    method RestoreBeginRequest(hash: string, issued: Token, restore: Token, now: int) returns (reply: Reply)
      requires Valid(now)
      modifies this
      ensures (View(), reply) == HandleRestoreBegin(old(View()), hash, issued, restore, now)
    {
      var found := FindUserByPhoneHash(hash);
      if found.None? || found.value !in backups {
        return NotFound;
      }
      var u := found.value;
      var ok := CreateSession(issued, u, now);
      if !ok {
        return Internal;
      }
      restores := restores[restore := (u, now + RESTORE_TTL)];
      return Restoring(issued, restore, backups[u].bundle.saltA, backups[u].bundle.saltPA);
    }

    method RestoreCompleteRequest(restore: Token, auth: Lockout.Bytes, isPin: bool, now: int) returns (reply: Reply)
      modifies this
      ensures (View(), reply) == HandleRestoreComplete(old(View()), restore, auth, isPin, now)
    {
      var user := RestoreTokenUser(restore, now);
      if user.None? {
        return Unauthorized;
      }
      if |auth| != 32 {
        return BadRequest;
      }
      var verdict := VerifyBackupAuth(user.value, auth, isPin, now);
      if verdict.None? {
        return NotFound;
      }
      match verdict.value
      case Match =>
        restores := restores - {restore};
        return Restored(backups[user.value].bundle);
      case WrongPin(remaining) => return WrongSecret(Some(remaining));
      case WrongPhrase => return WrongSecret(None);
      case Locked(until) => return LockedFor(if until - now > 1 then until - now else 1);
    }

    /** Serves one request; the tables go from one good state to the next. */
    method ServeRequest(r: Request, ghost was: int, now: int) returns (reply: Reply)
      requires Valid(was) && was <= now
      modifies this
      ensures (View(), reply) == Serve(old(View()), r, now)
      ensures Valid(now)
    {
      Accounts.ServeKeeps(View(), r, was, now);
      Accounts.LaterKeeps(View(), was, now);
      match r
      case Signup(hash) =>
        var cooling := IsPhoneInCooldown(hash, now);
        if cooling {
          return BadRequest;
        }
        var _ := FindOrCreatePendingUser(hash);
        return Accepted;
      case VerifyPhone(hash, issued) => reply := VerifyRequest(hash, issued, now);
      case RestoreBegin(hash, issued, restore) => reply := RestoreBeginRequest(hash, issued, restore, now);
      case RestoreComplete(restore, auth, isPin) => reply := RestoreCompleteRequest(restore, auth, isPin, now);
      case _ =>
        var caller := SessionUserId(r.session, now);
        if caller.None? {
          return Unauthorized;
        }
        reply := AccountRequest(caller.value, r, now);
    }
  }
}
