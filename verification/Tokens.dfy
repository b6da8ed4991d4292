/** Who a token speaks for, and what it buys, over every run of requests. */
module Tokens {
  import opened Base
  import opened Handles
  import opened Directory
  import opened Accounts
  import Lockout

  ghost function ReplyAt(rs: seq<(Request, int)>, i: nat): Reply
    requires i < |rs|
  {
    Serve(After(rs[..i]), rs[i].0, rs[i].1).1
  }

  // ---- sessions ------------------------------------------------------------------------------

  /** The request hands out session token `t` for account `u`. */
  ghost predicate Issues(d: Tables, r: Request, now: int, t: Token, u: UserId) {
    match r
    case VerifyPhone(_, issued) => issued == t && Serve(d, r, now).1 == Session(u, t)
    case RestoreBegin(hash, issued, _) =>
      issued == t && Serve(d, r, now).1.Restoring? && HasPhone(d.users, u, hash)
    case _ => false
  }

  ghost predicate IssuedTo(rs: seq<(Request, int)>, i: nat, t: Token, u: UserId) {
    i < |rs| && Issues(After(rs[..i]), rs[i].0, rs[i].1, t, u)
  }

  predicate IsAccountRequest(r: Request) {
    !r.Signup? && !r.VerifyPhone? && !r.RestoreBegin? && !r.RestoreComplete?
  }

  /** The account the request erases, if it does. */
  function Erases(d: Tables, r: Request, now: int): Option<UserId> {
    if r.DeleteAccount? then SessionUser(d, r.session, now) else None
  }

  /** An issued token is entered for its account, which is live, and was not in use. */
  lemma IssueEnters(d: Tables, r: Request, now: int, t: Token, u: UserId)
    requires Inv(d, now) && Issues(d, r, now, t, u)
    ensures
      var e := Serve(d, r, now).0;
      t !in d.sessions && t in e.sessions && e.sessions[t] == (u, now) && u in e.users
  {
    hide InCooldown, HandlesOk, CooldownOk;
    if r.VerifyPhone? {
      FindOrCreateKeepsSessions(d, r.hash);
    } else {
      assert PhoneUser(d.users, r.hash) == Some(u);
    }
  }

  lemma FindOrCreateKeepsSessions(d: Tables, hash: string)
    ensures
      var (t, u) := FindOrCreate(d, hash);
      t.sessions == d.sessions && t.bootstrap == d.bootstrap && t.cooldown == d.cooldown
      && t.restores == d.restores && u in t.users
  {
  }

  /** A token enters the table only by being issued, and leaves it only with its account. */
  lemma ServeSession(d: Tables, r: Request, now: int, t: Token)
    requires Inv(d, now)
    ensures
      var e := Serve(d, r, now).0;
      && (t in d.sessions && Erases(d, r, now) != Some(d.sessions[t].0) ==>
            t in e.sessions && e.sessions[t] == d.sessions[t])
      && (t in e.sessions && t !in d.sessions ==> Issues(d, r, now, t, e.sessions[t].0) && e.sessions[t].1 == now)
      && (t in e.sessions && t in d.sessions ==> e.sessions[t] == d.sessions[t])
  {
    match r
    case Signup(hash) => FindOrCreateKeepsSessions(d, hash);
    case VerifyPhone(hash, issued) => VerifySession(d, hash, issued, now, t);
    case RestoreBegin(hash, issued, restore) => BeginSession(d, hash, issued, restore, now, t);
    case RestoreComplete(restore, auth, isPin) => CompleteChangesRows(d, restore, auth, isPin, now);
    case _ =>
      if SessionUser(d, r.session, now).Some? {
        AccountSessions(d, SessionUser(d, r.session, now).value, r, now);
      }
  }

  lemma VerifySession(d: Tables, hash: string, issued: Token, now: int, t: Token)
    ensures
      var (e, reply) := HandleVerify(d, hash, issued, now);
      && (t in d.sessions ==> t in e.sessions && e.sessions[t] == d.sessions[t])
      && (t in e.sessions && t !in d.sessions ==>
            t == issued && reply == Session(e.sessions[t].0, t) && e.sessions[t].1 == now)
  {
    FindOrCreateKeepsSessions(d, hash);
    hide InCooldown, FindOrCreate;
  }

  lemma BeginSession(d: Tables, hash: string, issued: Token, restore: Token, now: int, t: Token)
    ensures
      var (e, reply) := HandleRestoreBegin(d, hash, issued, restore, now);
      && (t in d.sessions ==> t in e.sessions && e.sessions[t] == d.sessions[t])
      && (t in e.sessions && t !in d.sessions ==>
            t == issued && reply.Restoring? && HasPhone(d.users, e.sessions[t].0, hash) && e.sessions[t].1 == now)
  {
  }

  lemma AccountSessions(d: Tables, u: UserId, r: Request, now: int)
    requires IsAccountRequest(r)
    ensures
      var e := HandleAccount(d, u, r, now).0;
      if r.DeleteAccount? then e.sessions == map k | k in d.sessions && d.sessions[k].0 != u :: d.sessions[k]
      else e.sessions == d.sessions
  {
    AccountFrame(d, u, r, now);
  }

  /** What an account request does to the tables beside the users. */
  lemma AccountFrame(d: Tables, u: UserId, r: Request, now: int)
    requires IsAccountRequest(r)
    ensures
      var e := HandleAccount(d, u, r, now).0;
      && e.restores == d.restores
      && (r.DeleteAccount? ==> e == Erase(d, u, now))
      && (!r.DeleteAccount? ==> e.sessions == d.sessions && e.cooldown == d.cooldown)
  {
    hide Claim, ValidUpload, Blank, IsDigest;
    if r.DeleteAccount? {
    } else if r.ClaimUsername? && Claim(d, u, r.nickname).Some? {
      ClaimChangesNames(d, u, r.nickname);
    }
  }

  lemma ClaimChangesNames(d: Tables, u: UserId, nickname: string)
    requires Claim(d, u, nickname).Some?
    ensures
      var t := Claim(d, u, nickname).value.0;
      t == d.(users := t.users, widths := t.widths)
  {
    hide Assign, Taken, ValidateNickname;
  }

  /** The session table is the issues that stand: an entry for each token issued to an account still live. */
  lemma {:induction false} TableHoldsIssues(rs: seq<(Request, int)>, t: Token) returns (i: nat)
    requires Clock(rs) && t in After(rs).sessions
    ensures IssuedTo(rs, i, t, After(rs).sessions[t].0) && rs[i].1 == After(rs).sessions[t].1
  {
    hide Serve, Issues;
    var before := rs[..|rs| - 1];
    var d := After(before);
    var (r, now) := rs[|rs| - 1];
    assert before != [] ==> before[|before| - 1] == rs[|rs| - 2];
    RunKeeps(before, now);
    ServeSession(d, r, now, t);
    if t in d.sessions {
      i := TableHoldsIssues(before, t);
      assert before[..i] == rs[..i];
    } else {
      i := |rs| - 1;
    }
  }

  lemma {:induction false} IssuesStand(rs: seq<(Request, int)>, i: nat, t: Token, u: UserId)
    requires Clock(rs) && IssuedTo(rs, i, t, u)
    ensures u in After(rs).users
    ensures !Erased(After(rs).users, u) ==> t in After(rs).sessions && After(rs).sessions[t] == (u, rs[i].1)
  {
    hide Serve, Issues;
    var before := rs[..|rs| - 1];
    var d := After(before);
    var (r, now) := rs[|rs| - 1];
    assert before != [] ==> before[|before| - 1] == rs[|rs| - 2];
    RunKeeps(before, now);
    if i == |rs| - 1 {
      IssueEnters(d, r, now, t, u);
    } else {
      assert before[..i] == rs[..i];
      IssuesStand(before, i, t, u);
      ServeKeeps(d, r, now, now);
      ServeSession(d, r, now, t);
      EraseLeavesTombstone(d, r, now);
      assert !Erased(After(rs).users, u) ==> !Erased(d.users, u);
    }
  }

  lemma EraseLeavesTombstone(d: Tables, r: Request, now: int)
    ensures Erases(d, r, now).Some? ==> Erased(Serve(d, r, now).0.users, Erases(d, r, now).value)
  {
  }

  /** The token was issued to the account less than ninety days ago, and the account has not been erased. */
  ghost predicate Holds(rs: seq<(Request, int)>, i: nat, t: Token, u: UserId, now: int) {
    IssuedTo(rs, i, t, u) && now - rs[i].1 < 90 * 24 * 3600 && !Erased(After(rs).users, u)
  }

  ghost predicate SpeaksFor(rs: seq<(Request, int)>, t: Token, u: UserId, now: int) {
    exists i: nat :: Holds(rs, i, t, u, now)
  }

  lemma SessionExactly(rs: seq<(Request, int)>, t: Token, now: int)
    requires Clock(rs) && NotBefore(rs, now)
    ensures forall u: UserId :: SessionUser(After(rs), t, now) == Some(u) <==> SpeaksFor(rs, t, u, now)
  {
    RunKeeps(rs, now);
    var caller := SessionUser(After(rs), t, now);
    forall u: UserId, i: nat | Holds(rs, i, t, u, now)
      ensures caller == Some(u)
    {
      IssuesStand(rs, i, t, u);
    }
    if caller.Some? {
      var i := TableHoldsIssues(rs, t);
      assert Holds(rs, i, t, caller.value, now);
    }
  }

  /**
   * In every run an account request is served for an account exactly if its token was issued to that
   * account less than ninety days ago and the account has not been erased since; any other request is
   * answered Unauthorized and changes nothing.
   */
  lemma AccountRequestsNeedASession(rs: seq<(Request, int)>, r: Request, now: int)
    requires Clock(rs) && NotBefore(rs, now) && IsAccountRequest(r)
    ensures forall u :: SpeaksFor(rs, r.session, u, now) ==>
      Serve(After(rs), r, now) == HandleAccount(After(rs), u, r, now)
    ensures (forall u :: !SpeaksFor(rs, r.session, u, now)) ==> Serve(After(rs), r, now) == (After(rs), Unauthorized)
    ensures forall u, v :: SpeaksFor(rs, r.session, u, now) && SpeaksFor(rs, r.session, v, now) ==> u == v
  {
    SessionExactly(rs, r.session, now);
    hide HandleAccount, After, SpeaksFor;
  }

  /** Sixty-four hexadecimal digits. */
  predicate HexDigest(s: string) {
    |s| == 64 && forall i :: 0 <= i < |s| ==> s[i] in "0123456789abcdefABCDEF"
  }

  /** What a request that is served must bring, and is refused without. */
  predicate WellFormed(r: Request)
    requires r.Searchable? || r.PutBootstrap? || r.PutBackup? || r.DeleteAccount?
  {
    match r
    case Searchable(_, on, hash) => on ==> hash.Some? && HexDigest(hash.value)
    case PutBootstrap(_, link) => !Blank(link)
    case PutBackup(_, up) =>
      && |up.saltP| == |up.saltF| == |up.saltA| == |up.saltPA| == 16 && |up.authPin| == |up.authPhrase| == 32
      && |up.blob| > 0 && |up.wPin| > 0 && |up.wPhrase| > 0
    case DeleteAccount(_) => true
  }

  /** The caller of a standing session is answered Accepted exactly if the request is well formed. */
  lemma AccountReplies(rs: seq<(Request, int)>, r: Request, u: UserId, now: int)
    requires r.Searchable? || r.PutBootstrap? || r.PutBackup? || r.DeleteAccount?
    requires Clock(rs) && NotBefore(rs, now) && SpeaksFor(rs, r.session, u, now)
    ensures
      var (e, reply) := Serve(After(rs), r, now);
      && reply == (if WellFormed(r) then Accepted else BadRequest)
      && (!WellFormed(r) ==> e == After(rs))
  {
    hide After, SpeaksFor, Serve, WellFormed;
    AccountRequestsNeedASession(rs, r, now);
    RequestReply(After(rs), u, r, now);
  }

  lemma RequestReply(d: Tables, u: UserId, r: Request, now: int)
    requires r.Searchable? || r.PutBootstrap? || r.PutBackup? || r.DeleteAccount?
    ensures
      var (e, reply) := HandleAccount(d, u, r, now);
      && reply == (if WellFormed(r) then Accepted else BadRequest)
      && (!WellFormed(r) ==> e == d)
  {
    hide Erase, SetSearchable, IsDigest, HexDigest;
    if r.Searchable? && r.searchHash.Some? {
      DigestIsHex(r.searchHash.value);
    }
  }

  lemma DigestIsHex(s: string)
    ensures IsDigest(s) <==> HexDigest(s)
  {
    hide Blank;
    assert forall i :: 0 <= i < |s| ==>
      (s[i] in "0123456789abcdefABCDEF" <==> '0' <= s[i] <= '9' || 'a' <= s[i] <= 'f' || 'A' <= s[i] <= 'F');
  }

  // ---- phones in cooldown --------------------------------------------------------------------

  /** The request at `i` erased an account that had this phone. */
  ghost predicate PhoneErasedAt(rs: seq<(Request, int)>, i: nat, hash: string) {
    && i < |rs|
    && var d := After(rs[..i]);
       var gone := Erases(d, rs[i].0, rs[i].1);
       gone.Some? && gone.value in d.users && d.users[gone.value].phoneHash == hash
  }

  lemma ServeCooldown(d: Tables, r: Request, now: int)
    ensures
      var gone, e := Erases(d, r, now), Serve(d, r, now).0;
      e.cooldown == if gone.Some? && gone.value in d.users
                    then d.cooldown + [(d.users[gone.value].phoneHash, now)] else d.cooldown
  {
    match r
    case Signup(hash) => FindOrCreateKeepsSessions(d, hash);
    case VerifyPhone(hash, issued) => VerifyFrame(d, hash, issued, now);
    case RestoreBegin(hash, issued, restore) =>
    case RestoreComplete(restore, auth, isPin) => CompleteChangesRows(d, restore, auth, isPin, now);
    case _ =>
      if SessionUser(d, r.session, now).Some? {
        AccountFrame(d, SessionUser(d, r.session, now).value, r, now);
      }
  }

  lemma VerifyFrame(d: Tables, hash: string, issued: Token, now: int)
    ensures
      var e := HandleVerify(d, hash, issued, now).0;
      e.cooldown == d.cooldown && e.bootstrap == d.bootstrap && e.restores == d.restores
  {
    FindOrCreateKeepsSessions(d, hash);
    hide InCooldown, FindOrCreate;
  }

  /** The cooldown table is the erasures, each at its time. */
  lemma {:induction false} CooldownHasErasure(rs: seq<(Request, int)>, k: nat) returns (i: nat)
    requires k < |After(rs).cooldown|
    ensures PhoneErasedAt(rs, i, After(rs).cooldown[k].0) && rs[i].1 == After(rs).cooldown[k].1
  {
    hide Serve, Erases;
    var before := rs[..|rs| - 1];
    ServeCooldown(After(before), rs[|rs| - 1].0, rs[|rs| - 1].1);
    if k < |After(before).cooldown| {
      i := CooldownHasErasure(before, k);
      assert before[..i] == rs[..i];
    } else {
      i := |rs| - 1;
    }
  }

  lemma {:induction false} ErasureIsInCooldown(rs: seq<(Request, int)>, i: nat, hash: string)
    requires PhoneErasedAt(rs, i, hash)
    ensures (hash, rs[i].1) in After(rs).cooldown
  {
    hide Serve, Erases;
    var before := rs[..|rs| - 1];
    ServeCooldown(After(before), rs[|rs| - 1].0, rs[|rs| - 1].1);
    if i < |before| {
      assert before[..i] == rs[..i];
      ErasureIsInCooldown(before, i, hash);
    }
  }

  /** An account with this phone was erased less than a day ago. */
  ghost predicate ErasedToday(rs: seq<(Request, int)>, i: nat, hash: string, now: int) {
    PhoneErasedAt(rs, i, hash) && now - rs[i].1 < 24 * 3600
  }

  /**
   * A phone is turned away, at signup and at verification, exactly if an account that had it was erased
   * less than a day ago; a signup that is not leaves the phone with a live account.
   */
  lemma PhoneRefusedExactly(rs: seq<(Request, int)>, hash: string, issued: Token, now: int)
    requires Clock(rs) && NotBefore(rs, now)
    ensures
      var d := After(rs);
      var (e, reply) := Serve(d, Signup(hash), now);
      && (reply == BadRequest <==> exists i: nat :: ErasedToday(rs, i, hash, now))
      && (reply == BadRequest ==> e == d)
      && (reply != BadRequest ==> reply == Accepted && exists u :: HasPhone(e.users, u, hash))
      && (Serve(d, VerifyPhone(hash, issued), now).1 == BadRequest <==> exists i: nat :: ErasedToday(rs, i, hash, now))
  {
    RunKeeps(rs, now);
    CooldownExactly(rs, hash, now);
    var d := After(rs);
    hide Inv, FindOrCreate, MarkVerified, AddSession, After, InCooldown, ErasedToday;
    if !InCooldown(d, hash, now) {
      FindOrCreateKeeps(d, hash, now);
    }
  }

  lemma CooldownExactly(rs: seq<(Request, int)>, hash: string, now: int)
    ensures InCooldown(After(rs), hash, now) <==> exists i: nat :: ErasedToday(rs, i, hash, now)
  {
    var d := After(rs);
    if InCooldown(d, hash, now) {
      var k :| 0 <= k < |d.cooldown| && d.cooldown[k].0 == hash && d.cooldown[k].1 > now - COOLDOWN;
      var i := CooldownHasErasure(rs, k);
      assert ErasedToday(rs, i, hash, now);
    }
    if i: nat :| ErasedToday(rs, i, hash, now) {
      ErasureIsInCooldown(rs, i, hash);
    }
  }

  // ---- pairing links -------------------------------------------------------------------------

  /** The link an account published last, if nothing has taken it and the account stands. */
  ghost function LinkOf(rs: seq<(Request, int)>, u: UserId): Option<string> {
    if rs == [] then None
    else
      var before, last, reply := rs[..|rs| - 1], rs[|rs| - 1], ReplyAt(rs, |rs| - 1);
      match last.0
      case PutBootstrap(session, link) =>
        if reply == Accepted && SpeaksFor(before, session, u, last.1) then Some(link) else LinkOf(before, u)
      case GetBootstrap(_, target) => if target == u && reply.Link? then None else LinkOf(before, u)
      case DeleteAccount(session) => if SpeaksFor(before, session, u, last.1) then None else LinkOf(before, u)
      case _ => LinkOf(before, u)
  }

  function Get<K(!new), V>(m: map<K, V>, k: K): Option<V> {
    if k in m then Some(m[k]) else None
  }

  lemma ServeLinks(d: Tables, r: Request, now: int, u: UserId)
    ensures
      var (e, reply) := Serve(d, r, now);
      Get(e.bootstrap, u) ==
      match r
      case PutBootstrap(session, link) =>
        if reply == Accepted && SessionUser(d, session, now) == Some(u) then Some(link) else Get(d.bootstrap, u)
      case GetBootstrap(_, target) => if target == u && reply.Link? then None else Get(d.bootstrap, u)
      case DeleteAccount(session) => if SessionUser(d, session, now) == Some(u) then None else Get(d.bootstrap, u)
      case _ => Get(d.bootstrap, u)
  {
    match r
    case Signup(hash) => FindOrCreateKeepsSessions(d, hash);
    case VerifyPhone(hash, issued) => VerifyFrame(d, hash, issued, now);
    case RestoreBegin(hash, issued, restore) =>
    case RestoreComplete(restore, auth, isPin) => CompleteChangesRows(d, restore, auth, isPin, now);
    case ClaimUsername(session, nickname) =>
      if SessionUser(d, session, now).Some? && Claim(d, SessionUser(d, session, now).value, nickname).Some? {
        ClaimChangesNames(d, SessionUser(d, session, now).value, nickname);
      }
      hide Claim, SessionUser;
    case _ => hide ValidUpload, Blank, IsDigest, SessionUser;
  }

  lemma {:induction false} LinksAreLastPublished(rs: seq<(Request, int)>, u: UserId)
    requires Clock(rs)
    ensures Get(After(rs).bootstrap, u) == LinkOf(rs, u)
  {
    if rs != [] {
      var before := rs[..|rs| - 1];
      var (r, now) := rs[|rs| - 1];
      assert before != [] ==> before[|before| - 1] == rs[|rs| - 2];
      LinksAreLastPublished(before, u);
      ServeLinks(After(before), r, now, u);
      if IsAccountRequest(r) {
        SessionExactly(before, r.session, now);
      }
      hide Serve, SpeaksFor, SessionUser;
    }
  }

  /**
   * Over every run a request for a pairing link is answered, to a caller whose session stands, with the
   * link its target published last, if no request has taken it and the target is live and opted in;
   * once it has been handed out no later request gets it.
   */
  lemma LinkIsHandedOutOnce(rs: seq<(Request, int)>, session: Token, target: UserId, now: int)
    requires Clock(rs) && NotBefore(rs, now)
    ensures
      var d, link := After(rs), LinkOf(rs, target);
      var (e, reply) := Serve(d, GetBootstrap(session, target), now);
      && reply == (if forall u :: !SpeaksFor(rs, session, u, now) then Unauthorized
                   else if link.Some? && Live(d.users, target) && d.users[target].searchable then Link(link.value)
                   else NotFound)
      && (!reply.Link? ==> e == d)
      && (reply.Link? ==> e == d.(bootstrap := d.bootstrap - {target})
                          && LinkOf(rs + [(GetBootstrap(session, target), now)], target) == None)
  {
    var r := GetBootstrap(session, target);
    SessionExactly(rs, session, now);
    LinksAreLastPublished(rs, target);
    assert (rs + [(r, now)])[..|rs|] == rs;
    hide After, SpeaksFor, SessionUser;
  }

  // ---- search buckets ------------------------------------------------------------------------

  /** The phone search hash an account opted in with last, if it has not opted out since and stands. */
  ghost function OptIn(rs: seq<(Request, int)>, u: UserId): Option<string> {
    if rs == [] then None
    else
      var before, last := rs[..|rs| - 1], rs[|rs| - 1];
      match last.0
      case Searchable(session, on, hash) =>
        if SpeaksFor(before, session, u, last.1) && (on ==> hash.Some? && IsDigest(hash.value))
        then if on then hash else None
        else OptIn(before, u)
      case DeleteAccount(session) => if SpeaksFor(before, session, u, last.1) then None else OptIn(before, u)
      case _ => OptIn(before, u)
  }

  function Listed(users: Users, u: UserId): Option<string> {
    if u in users && users[u].searchable then Some(users[u].searchHash) else None
  }

  function DeletedAt(users: Users, u: UserId): Option<int> {
    if u in users then users[u].deletedAt else None
  }

  lemma ServeListed(d: Tables, r: Request, now: int, u: UserId)
    requires Inv(d, now)
    ensures
      Listed(Serve(d, r, now).0.users, u) ==
      match r
      case Searchable(session, on, hash) =>
        if SessionUser(d, session, now) == Some(u) && (on ==> hash.Some? && IsDigest(hash.value))
        then if on then hash else None
        else Listed(d.users, u)
      case DeleteAccount(session) =>
        if SessionUser(d, session, now) == Some(u) then None else Listed(d.users, u)
      case _ => Listed(d.users, u)
    ensures
      DeletedAt(Serve(d, r, now).0.users, u) ==
      if Erases(d, r, now) == Some(u) then Some(now) else DeletedAt(d.users, u)
  {
    hide HandleAccount, HandleSignup, HandleVerify, HandleRestoreBegin, HandleRestoreComplete, IsDigest, Listed;
    hide DeletedAt;
    match r
    case Signup(hash) => SignupListing(d, hash, now, u);
    case VerifyPhone(hash, issued) => VerifyListing(d, hash, issued, now, u);
    case RestoreBegin(hash, issued, restore) => BeginListing(d, hash, issued, restore, now);
    case RestoreComplete(restore, auth, isPin) => CompleteChangesRows(d, restore, auth, isPin, now);
    case _ =>
      var caller := SessionUser(d, r.session, now);
      if caller.Some? {
        AccountListing(d, caller.value, r, now, u);
      }
      hide Inv;
  }

  lemma SignupListing(d: Tables, hash: string, now: int, u: UserId)
    requires Inv(d, now)
    ensures Listed(HandleSignup(d, hash, now).0.users, u) == Listed(d.users, u)
    ensures DeletedAt(HandleSignup(d, hash, now).0.users, u) == DeletedAt(d.users, u)
  {
    ArrivalKeepsListing(d, hash, now, u);
    hide FindOrCreate, InCooldown, Inv;
  }

  lemma VerifyListing(d: Tables, hash: string, issued: Token, now: int, u: UserId)
    requires Inv(d, now)
    ensures Listed(HandleVerify(d, hash, issued, now).0.users, u) == Listed(d.users, u)
    ensures DeletedAt(HandleVerify(d, hash, issued, now).0.users, u) == DeletedAt(d.users, u)
  {
    hide FindOrCreate, InCooldown, Inv, MarkVerified, Listed, DeletedAt;
    ArrivalKeepsListing(d, hash, now, u);
    var (t, v) := FindOrCreate(d, hash);
    MarkKeepsListing(t, v, u);
  }

  lemma MarkKeepsListing(d: Tables, v: UserId, u: UserId)
    ensures Listed(MarkVerified(d, v).users, u) == Listed(d.users, u)
    ensures DeletedAt(MarkVerified(d, v).users, u) == DeletedAt(d.users, u)
  {
  }

  lemma BeginListing(d: Tables, hash: string, issued: Token, restore: Token, now: int)
    ensures HandleRestoreBegin(d, hash, issued, restore, now).0.users == d.users
  {
  }

  lemma ArrivalKeepsListing(d: Tables, hash: string, now: int, u: UserId)
    requires Inv(d, now)
    ensures Listed(FindOrCreate(d, hash).0.users, u) == Listed(d.users, u)
    ensures DeletedAt(FindOrCreate(d, hash).0.users, u) == DeletedAt(d.users, u)
  {
    assert d.nextId !in d.users;
    hide Inv;
  }

  lemma AccountListing(d: Tables, v: UserId, r: Request, now: int, u: UserId)
    requires IsAccountRequest(r) && v in d.users
    ensures
      Listed(HandleAccount(d, v, r, now).0.users, u) ==
      match r
      case Searchable(_, on, hash) =>
        if u == v && (on ==> hash.Some? && IsDigest(hash.value)) then if on then hash else None
        else Listed(d.users, u)
      case DeleteAccount(_) => if u == v then None else Listed(d.users, u)
      case _ => Listed(d.users, u)
    ensures
      DeletedAt(HandleAccount(d, v, r, now).0.users, u) ==
      if r.DeleteAccount? && u == v then Some(now) else DeletedAt(d.users, u)
  {
    hide IsDigest, ValidUpload, Blank;
    if r.ClaimUsername? {
      ClaimKeepsListing(d, v, r.nickname, u);
      hide Claim;
    }
  }

  lemma ClaimKeepsListing(d: Tables, u: UserId, nickname: string, v: UserId)
    ensures Claim(d, u, nickname).Some? ==>
      var t := Claim(d, u, nickname).value.0;
      Listed(t.users, v) == Listed(d.users, v) && DeletedAt(t.users, v) == DeletedAt(d.users, v)
  {
    hide Assign, Taken, ValidateNickname;
  }

  lemma {:induction false} ListingsAreOptIns(rs: seq<(Request, int)>, u: UserId)
    requires Clock(rs)
    ensures Listed(After(rs).users, u) == OptIn(rs, u)
  {
    if rs != [] {
      var before := rs[..|rs| - 1];
      var (r, now) := rs[|rs| - 1];
      assert before != [] ==> before[|before| - 1] == rs[|rs| - 2];
      ListingsAreOptIns(before, u);
      RunKeeps(before, now);
      ServeListed(After(before), r, now, u);
      if IsAccountRequest(r) {
        SessionExactly(before, r.session, now);
      }
      hide Serve, SpeaksFor, SessionUser, Inv, Listed, IsDigest;
    }
  }

  /** A search bucket holds exactly the live accounts whose last opt-in was with a hash of that prefix. */
  lemma BucketsHoldOptIns(rs: seq<(Request, int)>, u: UserId, prefix: string)
    requires Clock(rs)
    ensures InBucket(After(rs).users, u, prefix) <==>
      var hash := OptIn(rs, u);
      Live(After(rs).users, u) && hash.Some? && |hash.value| == 64 && hash.value[..5] == prefix
  {
    ListingsAreOptIns(rs, u);
    OptInsAreDigests(rs, u);
    hide OptIn, After;
  }

  lemma {:induction false} OptInsAreDigests(rs: seq<(Request, int)>, u: UserId)
    ensures OptIn(rs, u).Some? ==> |OptIn(rs, u).value| == 64
  {
    if rs != [] {
      OptInsAreDigests(rs[..|rs| - 1], u);
      hide SpeaksFor;
    }
  }

  // ---- tombstones ----------------------------------------------------------------------------

  ghost predicate ErasedAt(rs: seq<(Request, int)>, i: nat, u: UserId) {
    i < |rs| && Erases(After(rs[..i]), rs[i].0, rs[i].1) == Some(u)
  }

  /** What is left of an account: its handle, which stays taken, and when it went. */
  predicate Scrubbed(a: Account) {
    a == Account("", false, false, "", a.handle, a.deletedAt)
  }

  lemma EraseScrubs(d: Tables, r: Request, now: int, u: UserId)
    requires Erases(d, r, now) == Some(u)
    ensures
      var e := Serve(d, r, now).0;
      u in d.users && u in e.users && Scrubbed(e.users[u]) && e.users[u].handle == d.users[u].handle
  {
  }

  /**
   * In every run an account is a tombstone exactly if it asked to be deleted, at the time the row names,
   * and the row then holds nothing but its handle: no phone, no search hash, no verified mark.
   */
  lemma {:induction false} TombstonesAreScrubbed(rs: seq<(Request, int)>, u: UserId)
    requires Clock(rs)
    ensures Erased(After(rs).users, u) ==>
      && Scrubbed(After(rs).users[u])
      && exists i: nat :: ErasedAt(rs, i, u) && After(rs).users[u].deletedAt == Some(rs[i].1)
    ensures forall i: nat :: ErasedAt(rs, i, u) ==> Erased(After(rs).users, u)
  {
    hide Serve, Erases, Inv, Scrubbed, Advances;
    if rs != [] {
      var before := rs[..|rs| - 1];
      var d := After(before);
      var (r, now) := rs[|rs| - 1];
      assert before != [] ==> before[|before| - 1] == rs[|rs| - 2];
      TombstonesAreScrubbed(before, u);
      RunKeeps(before, now);
      ServeListed(d, r, now, u);
      StepScrubs(d, r, now, u);
      forall i: nat | ErasedAt(rs, i, u)
        ensures Erased(After(rs).users, u)
      {
        if i < |before| {
          assert before[..i] == rs[..i];
          assert ErasedAt(before, i, u);
        }
      }
      if Erases(d, r, now) == Some(u) {
        assert ErasedAt(rs, |rs| - 1, u);
      } else if Erased(d.users, u) {
        var i: nat :| ErasedAt(before, i, u) && d.users[u].deletedAt == Some(before[i].1);
        assert before[..i] == rs[..i];
        assert ErasedAt(rs, i, u);
      }
    }
  }

  lemma StepScrubs(d: Tables, r: Request, now: int, u: UserId)
    requires Inv(d, now)
    ensures
      var e := Serve(d, r, now).0;
      && (Erases(d, r, now) == Some(u) ==> u in e.users && Scrubbed(e.users[u]))
      && (Erased(d.users, u) ==> u in e.users && e.users[u] == d.users[u])
  {
    if Erases(d, r, now) == Some(u) {
      EraseScrubs(d, r, now, u);
    }
    hide Serve, Erases, Inv, Scrubbed;
    ServeKeeps(d, r, now, now);
  }

  // ---- restore tokens ------------------------------------------------------------------------

  /** What a restore token stands for: the account of the phone it was issued for, and when it was. */
  ghost function Began(rs: seq<(Request, int)>, t: Token): Option<(UserId, int)> {
    if rs == [] then None
    else
      var before, last, reply := rs[..|rs| - 1], rs[|rs| - 1], ReplyAt(rs, |rs| - 1);
      match last.0
      case RestoreBegin(hash, _, restore) =>
        if restore == t && reply.Restoring? then
          var u := PhoneUser(After(before).users, hash);
          if u.Some? then Some((u.value, last.1)) else None
        else Began(before, t)
      case RestoreComplete(restore, _, _) =>
        if restore == t && (reply.Restored? || reply == Unauthorized) then None else Began(before, t)
      case _ => Began(before, t)
  }

  lemma ServeRestores(d: Tables, r: Request, now: int, t: Token)
    ensures
      var (e, reply) := Serve(d, r, now);
      Get(e.restores, t) ==
      match r
      case RestoreBegin(hash, _, restore) =>
        if restore == t && reply.Restoring? then
          var u := PhoneUser(d.users, hash);
          if u.Some? then Some((u.value, now + 600)) else None
        else Get(d.restores, t)
      case RestoreComplete(restore, _, _) =>
        if restore == t && (reply.Restored? || reply == Unauthorized) then None else Get(d.restores, t)
      case _ => Get(d.restores, t)
  {
    match r
    case Signup(hash) => FindOrCreateKeepsSessions(d, hash);
    case VerifyPhone(hash, issued) => VerifyFrame(d, hash, issued, now);
    case RestoreBegin(hash, issued, restore) => hide PhoneUser;
    case RestoreComplete(restore, auth, isPin) => CompleteSpends(d, restore, auth, isPin, now);
    case _ =>
      if SessionUser(d, r.session, now).Some? {
        AccountFrame(d, SessionUser(d, r.session, now).value, r, now);
      }
      hide HandleAccount, SessionUser;
  }

  lemma CompleteSpends(d: Tables, restore: Token, auth: Lockout.Bytes, isPin: bool, now: int)
    ensures
      var (e, reply) := HandleRestoreComplete(d, restore, auth, isPin, now);
      e.restores == if reply.Restored? || reply == Unauthorized then d.restores - {restore} else d.restores
  {
    if RestoreUser(d, restore, now).Some? {
      CheckChangesRow(d, RestoreUser(d, restore, now).value, auth, isPin, now);
    }
    hide CheckBackup, RestoreUser;
  }

  lemma {:induction false} RestoresAreBegun(rs: seq<(Request, int)>, t: Token)
    ensures
      var began := Began(rs, t);
      Get(After(rs).restores, t) == if began.Some? then Some((began.value.0, began.value.1 + 600)) else None
  {
    if rs != [] {
      var before := rs[..|rs| - 1];
      var (r, now) := rs[|rs| - 1];
      RestoresAreBegun(before, t);
      ServeRestores(After(before), r, now, t);
      hide Serve, PhoneUser;
    }
  }

  /**
   * Over every run a restore token stands for the account it was issued for, for six hundred seconds;
   * from then on, and when it was never issued or is spent, completing a restore with it is answered
   * Unauthorized and leaves every table but the restore tokens as it was.
   */
  lemma RestoreTokensExpire(rs: seq<(Request, int)>, t: Token, auth: Lockout.Bytes, isPin: bool, now: int)
    ensures
      var began := Began(rs, t);
      var d := After(rs);
      var (e, reply) := Serve(d, RestoreComplete(t, auth, isPin), now);
      && RestoreUser(d, t, now) ==
           (if began.Some? && now - began.value.1 < 600 then Some(began.value.0) else None)
      && (reply == Unauthorized <==> began.None? || now - began.value.1 >= 600)
      && (reply == Unauthorized ==> e == d.(restores := d.restores - {t}))
  {
    RestoresAreBegun(rs, t);
    hide After, Began, CheckBackup;
  }
}
