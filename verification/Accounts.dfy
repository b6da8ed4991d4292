/** What the directory keeps over every run of requests: accounts, erasure, cooldown and handles. */
module Accounts {
  import opened Base
  import opened Handles
  import opened Directory
  import Lockout

  // ---- the invariant -------------------------------------------------------------------------

  /** One live row per phone hash, and every id below the sequence. */
  ghost predicate RowsOk(users: Users, nextId: UserId) {
    && (forall u :: u in users ==> u < nextId)
    && (forall u, v, hash :: HasPhone(users, u, hash) && HasPhone(users, v, hash) ==> u == v)
  }

  ghost predicate SessionsLive(users: Users, sessions: map<Token, (UserId, int)>) {
    forall t :: t in sessions ==> Live(users, sessions[t].0)
  }

  ghost predicate AllLive(users: Users, owners: set<UserId>) {
    forall u :: u in owners ==> Live(users, u)
  }

  /** No live account has a phone that was erased within the cooldown. */
  ghost predicate CooldownOk(users: Users, cooldown: seq<(string, int)>, now: int) {
    forall u, i :: 0 <= i < |cooldown| && HasPhone(users, u, cooldown[i].0) ==> cooldown[i].1 <= now - COOLDOWN
  }

  ghost predicate HandleFits(widths: map<string, nat>, h: Handle) {
    && ValidateNickname(h.nickname) == None
    && h.nickname in widths
    && 1 <= h.discriminator < Pow10(widths[h.nickname])
  }

  ghost predicate SharedHandle(a: Account, b: Account) {
    a.handle.Some? && a.handle == b.handle
  }

  /** Handles are unique over all rows, tombstones included, and fit their nickname's width. */
  ghost predicate HandlesOk(users: Users, widths: map<string, nat>) {
    && (forall n :: n in widths ==> MIN_WIDTH <= widths[n] <= MAX_WIDTH)
    && (forall u :: u in users && users[u].handle.Some? ==> HandleFits(widths, users[u].handle.value))
    && (forall u, v :: u in users && v in users && SharedHandle(users[u], users[v]) ==> u == v)
  }

  ghost predicate Inv(d: Tables, now: int) {
    && RowsOk(d.users, d.nextId)
    && SessionsLive(d.users, d.sessions)
    && AllLive(d.users, d.bootstrap.Keys)
    && AllLive(d.users, d.backups.Keys)
    && CooldownOk(d.users, d.cooldown, now)
    && HandlesOk(d.users, d.widths)
  }

  // ---- one statement at a time ---------------------------------------------------------------

  /** The rows agree on phone and deletion. */
  ghost predicate SameStanding(a: Users, b: Users) {
    a.Keys == b.Keys && forall u :: u in a ==> a[u].deletedAt == b[u].deletedAt && a[u].phoneHash == b[u].phoneHash
  }

  lemma StandingKeeps(d: Tables, users: Users, now: int)
    requires Inv(d, now) && SameStanding(d.users, users)
    ensures
      && RowsOk(users, d.nextId) && SessionsLive(users, d.sessions)
      && AllLive(users, d.bootstrap.Keys) && AllLive(users, d.backups.Keys)
      && CooldownOk(users, d.cooldown, now)
  {
    assert forall u, hash :: HasPhone(users, u, hash) <==> HasPhone(d.users, u, hash);
    assert forall u :: Live(users, u) <==> Live(d.users, u);
  }

  /** A change to one row's flags, with phone, deletion and handle left alone. */
  lemma FlagsKeep(d: Tables, u: UserId, a: Account, now: int)
    requires Inv(d, now) && u in d.users
    requires a == d.users[u].(verified := a.verified, searchable := a.searchable, searchHash := a.searchHash)
    ensures Inv(WithUser(d, u, a), now)
  {
    var users := d.users[u := a];
    StandingKeeps(d, users, now);
    FlagsKeepHandles(d.users, d.widths, u, a);
  }

  lemma FlagsKeepHandles(users: Users, widths: map<string, nat>, u: UserId, a: Account)
    requires HandlesOk(users, widths) && u in users && a.handle == users[u].handle
    ensures HandlesOk(users[u := a], widths)
  {
    var t := users[u := a];
    forall v, w | v in t && w in t && SharedHandle(t[v], t[w])
      ensures v == w
    {
      assert SharedHandle(users[v], users[w]);
    }
  }

  lemma FindOrCreateKeeps(d: Tables, hash: string, now: int)
    requires Inv(d, now) && !InCooldown(d, hash, now)
    ensures
      var (t, u) := FindOrCreate(d, hash);
      && Inv(t, now) && HasPhone(t.users, u, hash)
      && (u in d.users ==> HasPhone(d.users, u, hash))
      && (forall v :: v in d.users ==> v in t.users && t.users[v] == d.users[v])
      && t == d.(nextId := t.nextId, users := t.users)
  {
    if PhoneUser(d.users, hash).None? {
      CreateKeeps(d, hash, now);
    }
  }

  /** A new row gets an id no row ever had, and no live row or recent erasure has its phone. */
  lemma CreateKeeps(d: Tables, hash: string, now: int)
    requires Inv(d, now) && !InCooldown(d, hash, now)
    requires forall u :: !HasPhone(d.users, u, hash)
    ensures
      && d.nextId !in d.users
      && Inv(d.(nextId := d.nextId + 1,
                users := d.users[d.nextId := Account(hash, false, false, "", None, None)]), now)
  {
    var users := d.users[d.nextId := Account(hash, false, false, "", None, None)];
    assert d.nextId !in d.users;
    assert forall u :: Live(users, u) <==> u == d.nextId || Live(d.users, u);
    assert forall u, h :: HasPhone(users, u, h) <==> (u == d.nextId && h == hash) || HasPhone(d.users, u, h);
    CreateKeepsHandles(d.users, d.widths, d.nextId, users[d.nextId]);
  }

  lemma CreateKeepsHandles(users: Users, widths: map<string, nat>, u: UserId, a: Account)
    requires HandlesOk(users, widths) && u !in users && a.handle == None
    ensures HandlesOk(users[u := a], widths)
  {
    var t := users[u := a];
    forall v, w | v in t && w in t && SharedHandle(t[v], t[w])
      ensures v == w
    {
      assert SharedHandle(users[v], users[w]);
    }
  }

  /** A claim takes the least number nobody holds, and the other holders still fit. */
  lemma ClaimKeeps(d: Tables, u: UserId, nickname: string, now: int)
    requires Inv(d, now) && u in d.users && Claim(d, u, nickname).Some?
    ensures
      var (t, slot, width) := Claim(d, u, nickname).value;
      && Inv(t, now)
      && LeastFree(Taken(d.users, nickname), slot)
      && t.users == d.users[u := d.users[u].(handle := Some(Handle(nickname, slot)))]
      && t == d.(users := t.users, widths := d.widths[nickname := width])
      && WidthOf(d.widths, nickname) <= width
  {
    var (t, slot, width) := Claim(d, u, nickname).value;
    assert WidthOf(d.widths, nickname) <= MAX_WIDTH;
    AssignIs(Taken(d.users, nickname), WidthOf(d.widths, nickname));
    ClaimKeepsHandles(d.users, d.widths, u, nickname, slot, width);
    StandingKeeps(d, t.users, now);
  }

  lemma ClaimKeepsHandles(users: Users, widths: map<string, nat>, u: UserId, nickname: string, slot: nat, width: nat)
    requires HandlesOk(users, widths) && u in users && ValidateNickname(nickname) == None
    requires Assigned(Taken(users, nickname), WidthOf(widths, nickname), slot, width)
    ensures
      HandlesOk(users[u := users[u].(handle := Some(Handle(nickname, slot)))], widths[nickname := width])
  {
    var t := users[u := users[u].(handle := Some(Handle(nickname, slot)))];
    forall v | v in t && t[v].handle.Some?
      ensures HandleFits(widths[nickname := width], t[v].handle.value)
      ensures v != u ==> t[v].handle != t[u].handle
    {
      if v != u {
        var h := users[v].handle.value;
        assert HandleFits(widths, h);
        if h.nickname == nickname {
          assert h.discriminator in Taken(users, nickname);
          Pow10Grows(widths[nickname], width);
        }
      }
    }
    forall v, w | v in t && w in t && SharedHandle(t[v], t[w])
      ensures v == w
    {
      if v != u && w != u {
        assert SharedHandle(users[v], users[w]);
      }
    }
  }

  lemma EraseKeeps(d: Tables, u: UserId, now: int)
    requires Inv(d, now) && Live(d.users, u)
    ensures Inv(Erase(d, u, now), now)
  {
    var t := Erase(d, u, now);
    assert forall v :: Live(t.users, v) <==> Live(d.users, v) && v != u;
    assert forall v, h :: HasPhone(t.users, v, h) <==> HasPhone(d.users, v, h) && v != u;
    assert HasPhone(d.users, u, d.users[u].phoneHash);
    FlagsKeepHandles(d.users, d.widths, u, t.users[u]);
  }

  // ---- one request at a time -----------------------------------------------------------------

  /** No row goes away, a tombstone is never written again, and no nickname gets narrower. */
  ghost predicate Advances(d: Tables, t: Tables) {
    && (forall u :: u in d.users ==> u in t.users)
    && (forall u :: Erased(d.users, u) ==> u in t.users && t.users[u] == d.users[u])
    && (forall n :: n in d.widths ==> n in t.widths && d.widths[n] <= t.widths[n])
  }

  /** A live row may change and widths may grow. */
  lemma RowAdvances(d: Tables, t: Tables, u: UserId)
    requires Live(d.users, u) && u in t.users && t.users == d.users[u := t.users[u]]
    requires forall n :: n in d.widths ==> n in t.widths && d.widths[n] <= t.widths[n]
    ensures Advances(d, t)
  {
  }

  lemma LaterKeeps(d: Tables, was: int, now: int)
    requires Inv(d, was) && was <= now
    ensures Inv(d, now)
  {
  }

  /** Changes to the session, bootstrap, backup and restore tables alone. */
  lemma SideTablesKeep(d: Tables, t: Tables, now: int)
    requires Inv(d, now)
    requires t == d.(sessions := t.sessions, bootstrap := t.bootstrap, backups := t.backups, restores := t.restores)
    requires SessionsLive(d.users, t.sessions)
    requires AllLive(d.users, t.bootstrap.Keys) && AllLive(d.users, t.backups.Keys)
    ensures Inv(t, now) && Advances(d, t)
  {
  }

  lemma SignupKeeps(d: Tables, hash: string, now: int)
    requires Inv(d, now)
    ensures Inv(HandleSignup(d, hash, now).0, now) && Advances(d, HandleSignup(d, hash, now).0)
  {
    if !InCooldown(d, hash, now) {
      FindOrCreateKeeps(d, hash, now);
    }
  }

  /** The account a verified phone ends up with. */
  lemma VerifyFinds(d: Tables, hash: string, now: int)
    requires Inv(d, now) && !InCooldown(d, hash, now)
    ensures
      var (t, u) := FindOrCreate(d, hash);
      var v := MarkVerified(t, u);
      && Inv(v, now) && Advances(d, v) && HasPhone(v.users, u, hash) && v.users[u].verified
      && v.sessions == d.sessions
      && (HasPhone(d.users, u, hash) || u !in d.users)
  {
    FindOrCreateKeeps(d, hash, now);
    hide FindOrCreate, Inv, Advances;
    var (t, u) := FindOrCreate(d, hash);
    FlagsKeep(t, u, t.users[u].(verified := true), now);
    FoundAdvances(d, t, u, MarkVerified(t, u));
  }

  lemma FoundAdvances(d: Tables, t: Tables, u: UserId, v: Tables)
    requires forall w :: w in d.users ==> w in t.users && t.users[w] == d.users[w]
    requires Live(t.users, u) && u in v.users && v.users == t.users[u := v.users[u]]
    requires t.widths == d.widths && v.widths == d.widths
    ensures Advances(d, v)
  {
  }

  lemma VerifyKeeps(d: Tables, hash: string, issued: Token, now: int)
    requires Inv(d, now)
    ensures Inv(HandleVerify(d, hash, issued, now).0, now) && Advances(d, HandleVerify(d, hash, issued, now).0)
  {
    if !InCooldown(d, hash, now) {
      VerifyFinds(d, hash, now);
      hide FindOrCreate, MarkVerified, Advances, RowsOk, HandlesOk, CooldownOk, AllLive;
      var (t, u) := FindOrCreate(d, hash);
      var v := MarkVerified(t, u);
      if issued !in v.sessions {
        SessionKeeps(v, issued, u, now);
      }
      assert Advances(d, HandleVerify(d, hash, issued, now).0) by {
        AdvancesWith(d, v, HandleVerify(d, hash, issued, now).0);
      }
    } else {
      assert Advances(d, d);
    }
  }

  lemma AdvancesWith(d: Tables, v: Tables, t: Tables)
    requires Advances(d, v) && t.users == v.users && t.widths == v.widths
    ensures Advances(d, t)
  {
  }

  lemma SessionKeeps(d: Tables, t: Token, u: UserId, now: int)
    requires Inv(d, now) && Live(d.users, u)
    ensures Inv(d.(sessions := d.sessions[t := (u, now)]), now)
  {
    hide RowsOk, HandlesOk, CooldownOk, AllLive;
  }

  lemma ClaimRequestKeeps(d: Tables, u: UserId, r: Request, now: int)
    requires r.ClaimUsername? && Inv(d, now) && Live(d.users, u)
    ensures Inv(HandleAccount(d, u, r, now).0, now) && Advances(d, HandleAccount(d, u, r, now).0)
  {
    if Claim(d, u, r.nickname).Some? {
      ClaimKeeps(d, u, r.nickname, now);
      var t := HandleAccount(d, u, r, now).0;
      assert t == Claim(d, u, r.nickname).value.0;
      assert forall n :: n in d.widths ==> d.widths[n] == WidthOf(d.widths, n);
      hide Claim, HandleAccount, Inv;
      RowAdvances(d, t, u);
    }
  }

  lemma SearchableKeeps(d: Tables, u: UserId, r: Request, now: int)
    requires r.Searchable? && Inv(d, now) && Live(d.users, u)
    ensures Inv(HandleAccount(d, u, r, now).0, now) && Advances(d, HandleAccount(d, u, r, now).0)
  {
    hide Inv, Advances;
    var hash := if r.on && r.searchHash.Some? then r.searchHash.value else "";
    FlagsKeep(d, u, d.users[u].(searchable := r.on, searchHash := hash), now);
    var t := HandleAccount(d, u, r, now).0;
    assert t == d || t == WithUser(d, u, d.users[u].(searchable := r.on, searchHash := hash));
    RowAdvances(d, d, u);
    RowAdvances(d, WithUser(d, u, d.users[u].(searchable := r.on, searchHash := hash)), u);
  }

  lemma DeleteKeeps(d: Tables, u: UserId, r: Request, now: int)
    requires r.DeleteAccount? && Inv(d, now) && Live(d.users, u)
    ensures Inv(HandleAccount(d, u, r, now).0, now) && Advances(d, HandleAccount(d, u, r, now).0)
  {
    hide Inv, Advances;
    EraseKeeps(d, u, now);
    RowAdvances(d, Erase(d, u, now), u);
  }

  lemma AccountKeeps(d: Tables, u: UserId, r: Request, now: int)
    requires !r.Signup? && !r.VerifyPhone? && !r.RestoreBegin? && !r.RestoreComplete?
    requires Inv(d, now) && Live(d.users, u)
    ensures Inv(HandleAccount(d, u, r, now).0, now) && Advances(d, HandleAccount(d, u, r, now).0)
  {
    hide Inv, Advances, HandleAccount;
    if r.ClaimUsername? {
      ClaimRequestKeeps(d, u, r, now);
    } else if r.Searchable? {
      SearchableKeeps(d, u, r, now);
    } else if r.DeleteAccount? {
      DeleteKeeps(d, u, r, now);
    } else {
      SideRequestKeeps(d, u, r, now);
    }
  }

  lemma SideRequestKeeps(d: Tables, u: UserId, r: Request, now: int)
    requires r.PutBootstrap? || r.GetBootstrap? || r.PutBackup?
    requires Inv(d, now) && Live(d.users, u)
    ensures Inv(HandleAccount(d, u, r, now).0, now) && Advances(d, HandleAccount(d, u, r, now).0)
  {
    hide RowsOk, HandlesOk, CooldownOk;
    SideTablesKeep(d, HandleAccount(d, u, r, now).0, now);
  }

  lemma RestoreBeginKeeps(d: Tables, hash: string, issued: Token, restore: Token, now: int)
    requires Inv(d, now)
    ensures
      var t := HandleRestoreBegin(d, hash, issued, restore, now).0;
      Inv(t, now) && Advances(d, t)
  {
    hide RowsOk, HandlesOk, CooldownOk;
    SideTablesKeep(d, HandleRestoreBegin(d, hash, issued, restore, now).0, now);
  }

  lemma RestoreCompleteKeeps(d: Tables, restore: Token, auth: Lockout.Bytes, isPin: bool, now: int)
    requires Inv(d, now)
    ensures
      var t := HandleRestoreComplete(d, restore, auth, isPin, now).0;
      Inv(t, now) && Advances(d, t)
  {
    var t := HandleRestoreComplete(d, restore, auth, isPin, now).0;
    assert t == d.(backups := t.backups, restores := t.restores) && t.backups.Keys == d.backups.Keys by {
      CompleteChangesRows(d, restore, auth, isPin, now);
    }
    hide HandleRestoreComplete, RowsOk, HandlesOk, CooldownOk;
    SideTablesKeep(d, t, now);
  }

  lemma CompleteChangesRows(d: Tables, restore: Token, auth: Lockout.Bytes, isPin: bool, now: int)
    ensures
      var t := HandleRestoreComplete(d, restore, auth, isPin, now).0;
      t == d.(backups := t.backups, restores := t.restores) && t.backups.Keys == d.backups.Keys
  {
    if RestoreUser(d, restore, now).Some? {
      CheckChangesRow(d, RestoreUser(d, restore, now).value, auth, isPin, now);
    }
    hide CheckBackup, RestoreUser;
  }

  lemma CheckChangesRow(d: Tables, u: UserId, auth: Lockout.Bytes, isPin: bool, now: int)
    ensures
      var t := CheckBackup(d, u, auth, isPin, now).0;
      t == d.(backups := t.backups) && t.backups.Keys == d.backups.Keys
  {
    hide Lockout.Verify;
  }

  lemma ServeKeeps(d: Tables, r: Request, was: int, now: int)
    requires Inv(d, was) && was <= now
    ensures Inv(Serve(d, r, now).0, now) && Advances(d, Serve(d, r, now).0)
  {
    hide Inv, HandleAccount, HandleSignup, HandleVerify, HandleRestoreBegin, HandleRestoreComplete;
    LaterKeeps(d, was, now);
    match r
    case Signup(hash) => SignupKeeps(d, hash, now);
    case VerifyPhone(hash, issued) => VerifyKeeps(d, hash, issued, now);
    case RestoreBegin(hash, issued, restore) => RestoreBeginKeeps(d, hash, issued, restore, now);
    case RestoreComplete(restore, auth, isPin) => RestoreCompleteKeeps(d, restore, auth, isPin, now);
    case _ =>
      if SessionUser(d, r.session, now).Some? {
        AccountKeeps(d, SessionUser(d, r.session, now).value, r, now);
      }
  }

  // ---- whole runs ----------------------------------------------------------------------------

  /** No earlier than the last request of the run. */
  ghost predicate NotBefore(rs: seq<(Request, int)>, now: int) {
    rs != [] ==> rs[|rs| - 1].1 <= now
  }

  lemma {:induction false} RunKeeps(rs: seq<(Request, int)>, now: int)
    requires Clock(rs) && NotBefore(rs, now)
    ensures Inv(After(rs), now)
  {
    if rs != [] {
      var before := rs[..|rs| - 1];
      var at := rs[|rs| - 1].1;
      assert before != [] ==> before[|before| - 1] == rs[|rs| - 2];
      RunKeeps(before, at);
      ServeKeeps(After(before), rs[|rs| - 1].0, at, at);
      LaterKeeps(After(rs), at, now);
    }
  }

  lemma {:induction false} RunAdvances(rs: seq<(Request, int)>, i: nat)
    requires Clock(rs) && i <= |rs|
    ensures Advances(After(rs[..i]), After(rs))
  {
    if i == |rs| {
      assert rs[..i] == rs;
    } else {
      var before := rs[..|rs| - 1];
      var at := rs[|rs| - 1].1;
      assert before[..i] == rs[..i];
      assert before != [] ==> before[|before| - 1] == rs[|rs| - 2];
      RunAdvances(before, i);
      RunKeeps(before, at);
      ServeKeeps(After(before), rs[|rs| - 1].0, at, at);
    }
  }

  /** Nothing in the tables leads to the account. */
  ghost predicate Unreachable(d: Tables, u: UserId, now: int) {
    && (forall t :: SessionUser(d, t, now) != Some(u))
    && (forall t :: t in d.sessions ==> d.sessions[t].0 != u)
    && (forall hash :: !HasPhone(d.users, u, hash))
    && (forall nickname, n :: !HasHandle(d.users, u, nickname, n))
    && (forall prefix :: !InBucket(d.users, u, prefix))
    && TakeBootstrap(d, u) == (d, None)
    && (forall auth, isPin :: CheckBackup(d, u, auth, isPin, now) == (d, None))
  }

  /**
   * Erasure is permanent. Once an account is erased, whatever requests follow, nothing resolves to it
   * again, its row is never written again, and no other row ever holds its handle.
   */
  lemma ErasureIsPermanent(rs: seq<(Request, int)>, i: nat, u: UserId, now: int)
    requires Clock(rs) && NotBefore(rs, now) && i <= |rs| && Erased(After(rs[..i]).users, u)
    ensures Unreachable(After(rs), u, now)
    ensures u in After(rs).users && After(rs).users[u] == After(rs[..i]).users[u]
    ensures forall v :: v in After(rs).users && SharedHandle(After(rs).users[u], After(rs).users[v]) ==> v == u
  {
    RunKeeps(rs, now);
    RunAdvances(rs, i);
    var d := After(rs);
    hide After;
    ErasedUnreachable(d, u, now);
  }

  lemma ErasedUnreachable(d: Tables, u: UserId, now: int)
    requires Inv(d, now) && Erased(d.users, u)
    ensures Unreachable(d, u, now)
    ensures forall v :: v in d.users && SharedHandle(d.users[u], d.users[v]) ==> v == u
  {
    assert u !in d.bootstrap && u !in d.backups;
  }

  /** At most one live account per phone, and none for a phone still in its cooldown. */
  lemma PhonesAreExclusive(rs: seq<(Request, int)>, hash: string, now: int)
    requires Clock(rs) && NotBefore(rs, now)
    ensures forall u, v :: HasPhone(After(rs).users, u, hash) && HasPhone(After(rs).users, v, hash) ==> u == v
    ensures InCooldown(After(rs), hash, now) ==> forall u :: !HasPhone(After(rs).users, u, hash)
  {
    RunKeeps(rs, now);
  }

  /** What a token, a bootstrap and a backup give for one account. */
  ghost predicate SameAccess(d: Tables, t: Tables, v: UserId, now: int) {
    && (v in d.users <==> v in t.users) && (v in d.users ==> d.users[v] == t.users[v])
    && (forall k :: SessionUser(d, k, now) == Some(v) <==> SessionUser(t, k, now) == Some(v))
    && TakeBootstrap(d, v).1 == TakeBootstrap(t, v).1
    && (forall auth, isPin :: CheckBackup(d, v, auth, isPin, now).1 == CheckBackup(t, v, auth, isPin, now).1)
  }

  lemma EraseSparesOthers(d: Tables, u: UserId, v: UserId, now: int)
    requires u != v
    ensures SameAccess(d, Erase(d, u, now), v, now)
  {
    var t := Erase(d, u, now);
    EraseFrame(d, u, v, now);
    hide Erase;
    forall auth, isPin
      ensures CheckBackup(d, v, auth, isPin, now).1 == CheckBackup(t, v, auth, isPin, now).1
    {
      SameRowSameVerdict(d, t, v, auth, isPin, now);
    }
    hide CheckBackup;
  }

  lemma EraseFrame(d: Tables, u: UserId, v: UserId, now: int)
    requires u != v
    ensures
      var t := Erase(d, u, now);
      && (v in d.users <==> v in t.users) && (v in d.users ==> d.users[v] == t.users[v])
      && (v in d.bootstrap <==> v in t.bootstrap) && (v in d.bootstrap ==> d.bootstrap[v] == t.bootstrap[v])
      && (v in d.backups <==> v in t.backups) && (v in d.backups ==> d.backups[v] == t.backups[v])
      && (forall k :: k in t.sessions ==> k in d.sessions && t.sessions[k] == d.sessions[k])
      && (forall k :: k in d.sessions && d.sessions[k].0 == v ==> k in t.sessions)
  {
  }

  lemma SameRowSameVerdict(d: Tables, t: Tables, v: UserId, auth: Lockout.Bytes, isPin: bool, now: int)
    requires (v in d.backups <==> v in t.backups) && (v in d.backups ==> d.backups[v] == t.backups[v])
    ensures CheckBackup(d, v, auth, isPin, now).1 == CheckBackup(t, v, auth, isPin, now).1
  {
    hide Lockout.Verify;
  }

  /** Deleting an account erases the caller's own, starts its phone's cooldown, and touches nobody else. */
  lemma DeleteErasesExactlyTheCaller(rs: seq<(Request, int)>, session: Token, now: int)
    requires Clock(rs) && NotBefore(rs, now) && SessionUser(After(rs), session, now).Some?
    ensures
      var d := After(rs);
      var u := SessionUser(d, session, now).value;
      var t := Serve(d, DeleteAccount(session), now).0;
      && Erased(t.users, u)
      && InCooldown(t, d.users[u].phoneHash, now)
      && t.users[u].handle == d.users[u].handle
      && forall v :: v != u ==> SameAccess(d, t, v, now)
  {
    var d := After(rs);
    hide After, SameAccess;
    var u := SessionUser(d, session, now).value;
    var t := Erase(d, u, now);
    assert t.cooldown[|d.cooldown|] == (d.users[u].phoneHash, now);
    forall v | v != u
      ensures SameAccess(d, t, v, now)
    {
      EraseSparesOthers(d, u, v, now);
    }
  }

  /** Outside a cooldown a number can always be verified, by its live account or by a new one. */
  lemma VerifiedNumberGetsItsAccount(rs: seq<(Request, int)>, hash: string, issued: Token, now: int)
    requires Clock(rs) && NotBefore(rs, now)
    requires !InCooldown(After(rs), hash, now) && issued !in After(rs).sessions
    ensures
      var d := After(rs);
      var (t, reply) := Serve(d, VerifyPhone(hash, issued), now);
      && reply.Session? && HasPhone(t.users, reply.user, hash) && t.users[reply.user].verified
      && SessionUser(t, issued, now) == Some(reply.user)
      && (HasPhone(d.users, reply.user, hash) || reply.user !in d.users)
  {
    RunKeeps(rs, now);
    VerifyFinds(After(rs), hash, now);
    hide Inv, FindOrCreate, Advances;
  }

  // ---- handles -------------------------------------------------------------------------------

  /** A claim is refused only for a bad nickname or a full number space; else it takes the least free number. */
  lemma ClaimTakesLeastFree(rs: seq<(Request, int)>, session: Token, nickname: string, now: int)
    requires Clock(rs) && NotBefore(rs, now) && SessionUser(After(rs), session, now).Some?
    ensures
      var d := After(rs);
      var u := SessionUser(d, session, now).value;
      var (t, reply) := Serve(d, ClaimUsername(session, nickname), now);
      if ValidateNickname(nickname).Some? || Full(Taken(d.users, nickname), 999_999_999)
      then t == d && reply == BadRequest
      else exists slot ::
        && LeastFree(Taken(d.users, nickname), slot)
        && HasHandle(t.users, u, nickname, slot)
        && reply == Named(FormatHandle(nickname, slot, t.widths[nickname]))
  {
    RunKeeps(rs, now);
    Pow10Table();
    hide Pow10, Full;
    var d := After(rs);
    hide After, Inv, HandleAccount;
    ClaimAnswers(d, SessionUser(d, session, now).value, session, nickname, now);
  }

  /** The first holder of a nickname is its number 01. */
  lemma FirstClaimIsOne(rs: seq<(Request, int)>, session: Token, nickname: string, now: int)
    requires SessionUser(After(rs), session, now).Some? && ValidateNickname(nickname) == None
    requires Taken(After(rs).users, nickname) == {} && nickname !in After(rs).widths
    ensures Serve(After(rs), ClaimUsername(session, nickname), now).1 == Named(nickname + "#01")
  {
    hide After, ValidateNickname, SessionUser;
    Pow10Table();
    assert FreeFrom({}, 1, SlotCount(2)) == Some(1);
    assert Assign({}, 2) == Some((1, 2));
    OneIsTwoDigits(nickname);
    hide FormatHandle, Assign, Taken;
  }

  lemma OneIsTwoDigits(nickname: string)
    ensures FormatHandle(nickname, 1, 2) == nickname + "#01"
  {
    assert Decimal(1) == "1";
    assert RenderDiscriminator(1, 2) == "01";
    assert nickname + "#" + "01" == nickname + "#01";
  }

  lemma ClaimAnswers(d: Tables, u: UserId, session: Token, nickname: string, now: int)
    requires Inv(d, now) && Live(d.users, u)
    ensures
      var (t, reply) := HandleAccount(d, u, ClaimUsername(session, nickname), now);
      if ValidateNickname(nickname).Some? || Full(Taken(d.users, nickname), Pow10(MAX_WIDTH) - 1)
      then t == d && reply == BadRequest
      else exists slot ::
        && LeastFree(Taken(d.users, nickname), slot)
        && HasHandle(t.users, u, nickname, slot)
        && nickname in t.widths && reply == Named(FormatHandle(nickname, slot, t.widths[nickname]))
  {
    hide FormatHandle, LeastFree, Full;
    ClaimRefused(d, u, nickname, now);
    if Claim(d, u, nickname).Some? {
      ClaimKeeps(d, u, nickname, now);
      hide Claim, Inv;
      var (t, slot, width) := Claim(d, u, nickname).value;
      assert HasHandle(t.users, u, nickname, slot);
    }
  }

  lemma ClaimRefused(d: Tables, u: UserId, nickname: string, now: int)
    requires Inv(d, now)
    ensures Claim(d, u, nickname).None? <==>
            ValidateNickname(nickname).Some? || Full(Taken(d.users, nickname), Pow10(MAX_WIDTH) - 1)
  {
    assert WidthOf(d.widths, nickname) <= MAX_WIDTH;
    AssignIs(Taken(d.users, nickname), WidthOf(d.widths, nickname));
    hide Inv, Assign, Taken, Full, ValidateNickname;
  }

  /** A nickname's width never shrinks, and each of its holders is written in exactly that many digits. */
  lemma WidthsOnlyWiden(rs: seq<(Request, int)>, i: nat, u: UserId)
    requires Clock(rs) && i <= |rs| && u in After(rs).users && After(rs).users[u].handle.Some?
    ensures
      var h := After(rs).users[u].handle.value;
      && h.nickname in After(rs).widths
      && |RenderDiscriminator(h.discriminator, After(rs).widths[h.nickname])| == After(rs).widths[h.nickname]
      && (h.nickname in After(rs[..i]).widths ==> After(rs[..i]).widths[h.nickname] <= After(rs).widths[h.nickname])
  {
    RunKeeps(rs, if rs == [] then 0 else rs[|rs| - 1].1);
    RunAdvances(rs, i);
    var h := After(rs).users[u].handle.value;
    assert HandleFits(After(rs).widths, h);
    RenderedWidth(h.discriminator, After(rs).widths[h.nickname]);
  }

  /**
   * A handle shared in the past, at whatever width it then had, still leads to its holder and to
   * nobody else for as long as the holder keeps it.
   */
  lemma SharedHandleResolves(rs: seq<(Request, int)>, u: UserId, width: nat)
    requires Clock(rs) && Live(After(rs).users, u) && After(rs).users[u].handle.Some?
    ensures
      var users := After(rs).users;
      var h := users[u].handle.value;
      var parsed := ParseHandle(FormatHandle(h.nickname, h.discriminator, width));
      && parsed == Some((h.nickname, h.discriminator))
      && HasHandle(users, u, h.nickname, h.discriminator)
      && forall v :: HasHandle(users, v, h.nickname, h.discriminator) ==> v == u
  {
    RunKeeps(rs, if rs == [] then 0 else rs[|rs| - 1].1);
    FitsAnInt(After(rs), u);
    var h := After(rs).users[u].handle.value;
    HandleRoundTrip(h.nickname, h.discriminator, width);
    forall v | HasHandle(After(rs).users, v, h.nickname, h.discriminator)
      ensures v == u
    {
      assert SharedHandle(After(rs).users[u], After(rs).users[v]);
    }
  }

  /** Handles of different holders never read the same, at any widths. */
  lemma HandlesTellHoldersApart(rs: seq<(Request, int)>, u: UserId, v: UserId, w1: nat, w2: nat)
    requires Clock(rs) && u in After(rs).users && v in After(rs).users && u != v
    requires After(rs).users[u].handle.Some? && After(rs).users[v].handle.Some?
    ensures
      var a := After(rs).users[u].handle.value;
      var b := After(rs).users[v].handle.value;
      FormatHandle(a.nickname, a.discriminator, w1) != FormatHandle(b.nickname, b.discriminator, w2)
  {
    RunKeeps(rs, if rs == [] then 0 else rs[|rs| - 1].1);
    FitsAnInt(After(rs), u);
    FitsAnInt(After(rs), v);
    var a := After(rs).users[u].handle.value;
    var b := After(rs).users[v].handle.value;
    HandleRoundTrip(a.nickname, a.discriminator, w1);
    HandleRoundTrip(b.nickname, b.discriminator, w2);
    assert !SharedHandle(After(rs).users[u], After(rs).users[v]);
  }

  lemma FitsAnInt(d: Tables, u: UserId)
    requires HandlesOk(d.users, d.widths) && u in d.users && d.users[u].handle.Some?
    ensures ValidateNickname(d.users[u].handle.value.nickname) == None
    ensures d.users[u].handle.value.discriminator <= INT_MAX
  {
    var h := d.users[u].handle.value;
    assert HandleFits(d.widths, h);
    SlotCountIs(d.widths[h.nickname]);
  }
}
