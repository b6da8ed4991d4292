/** The directory's tables and the atomic request handlers that read and write them. */
module Directory {
  import opened Base
  import opened Handles
  import Lockout

  type UserId = nat
  type Token = string

  const HOUR := 3600
  const COOLDOWN := 24 * HOUR
  const SESSION_TTL := 90 * 24 * HOUR
  const RESTORE_TTL := 600
  const PREFIX_LEN := 5

  /** A users row; `deletedAt` marks a tombstone. */
  datatype Account = Account(
    phoneHash: string, verified: bool, searchable: bool, searchHash: string,
    handle: Option<Handle>, deletedAt: Option<int>)

  type Users = map<UserId, Account>

  type Bytes = Lockout.Bytes

  /** A recovery bundle as its owner uploads it: ciphertexts, salts and two hashes. */
  datatype Upload = Upload(
    blob: Bytes, wPin: Bytes, saltP: Bytes, wPhrase: Bytes, saltF: Bytes,
    authPin: Bytes, saltA: Bytes, authPhrase: Bytes, saltPA: Bytes)

  /** A backups row. */
  datatype Backup = Backup(bundle: Upload, attempts: nat, lockedUntil: Option<int>)

  /** The columns that authentication reads and writes. */
  function RowOf(b: Backup): Lockout.Row {
    Lockout.Row(b.bundle.authPin, b.bundle.authPhrase, b.attempts, b.lockedUntil)
  }

  predicate ValidUpload(b: Upload) {
    && |b.saltP| == 16 && |b.saltF| == 16 && |b.saltA| == 16 && |b.saltPA| == 16
    && |b.authPin| == 32 && |b.authPhrase| == 32
    && b.blob != [] && b.wPin != [] && b.wPhrase != []
  }

  datatype Tables = Tables(
    nextId: UserId,
    users: Users,
    widths: map<string, nat>,
    cooldown: seq<(string, int)>,
    sessions: map<Token, (UserId, int)>,
    bootstrap: map<UserId, string>,
    backups: map<UserId, Backup>,
    restores: map<Token, (UserId, int)>)

  const EMPTY := Tables(0, map[], map[], [], map[], map[], map[], map[])

  // ---- queries -------------------------------------------------------------------------------

  predicate Live(users: Users, u: UserId) {
    u in users && users[u].deletedAt == None
  }

  predicate Erased(users: Users, u: UserId) {
    u in users && users[u].deletedAt.Some?
  }

  /** The account a bearer token speaks for. */
  function SessionUser(d: Tables, t: Token, now: int): Option<UserId> {
    if t in d.sessions && d.sessions[t].1 > now - SESSION_TTL && Live(d.users, d.sessions[t].0)
    then Some(d.sessions[t].0) else None
  }

  predicate HasPhone(users: Users, u: UserId, hash: string) {
    Live(users, u) && users[u].phoneHash == hash
  }

  /** The live row of a phone hash; the partial unique index allows at most one. */
  ghost function PhoneUser(users: Users, hash: string): Option<UserId> {
    if exists u :: HasPhone(users, u, hash) then
      var u :| HasPhone(users, u, hash); Some(u)
    else None
  }

  predicate HasHandle(users: Users, u: UserId, nickname: string, discriminator: nat) {
    Live(users, u) && users[u].handle == Some(Handle(nickname, discriminator))
  }

  function HashPrefix(hash: string): string {
    if |hash| < PREFIX_LEN then hash else hash[..PREFIX_LEN]
  }

  predicate InBucket(users: Users, u: UserId, prefix: string) {
    Live(users, u) && users[u].searchable && HashPrefix(users[u].searchHash) == prefix
  }

  predicate InCooldown(d: Tables, hash: string, now: int) {
    exists i :: 0 <= i < |d.cooldown| && d.cooldown[i].0 == hash && d.cooldown[i].1 > now - COOLDOWN
  }

  function RestoreUser(d: Tables, t: Token, now: int): Option<UserId> {
    if t in d.restores && d.restores[t].1 > now then Some(d.restores[t].0) else None
  }

  /** The numbers in use under a nickname, tombstones included. */
  function Taken(users: Users, nickname: string): set<nat> {
    set u | u in users && users[u].handle.Some? && users[u].handle.value.nickname == nickname
      :: users[u].handle.value.discriminator
  }

  function WidthOf(widths: map<string, nat>, nickname: string): nat {
    if nickname in widths then widths[nickname] else MIN_WIDTH
  }

  // ---- statements ----------------------------------------------------------------------------

  /** Find-or-create for a phone hash as one statement; the id sequence moves either way. */
  ghost function FindOrCreate(d: Tables, hash: string): (Tables, UserId) {
    match PhoneUser(d.users, hash)
    case Some(u) => (d.(nextId := d.nextId + 1), u)
    case None =>
      (d.(nextId := d.nextId + 1,
          users := d.users[d.nextId := Account(hash, false, false, "", None, None)]),
       d.nextId)
  }

  function WithUser(d: Tables, u: UserId, a: Account): Tables {
    if u in d.users then d.(users := d.users[u := a]) else d
  }

  function MarkVerified(d: Tables, u: UserId): Tables {
    if u in d.users then WithUser(d, u, d.users[u].(verified := true)) else d
  }

  /** A token that is already in the table fails on its primary key. */
  function AddSession(d: Tables, t: Token, u: UserId, now: int): Option<Tables> {
    if t in d.sessions then None else Some(d.(sessions := d.sessions[t := (u, now)]))
  }

  function Claim(d: Tables, u: UserId, nickname: string): Option<(Tables, nat, nat)> {
    if ValidateNickname(nickname).Some? then None
    else match Assign(Taken(d.users, nickname), WidthOf(d.widths, nickname))
      case None => None
      case Some((slot, width)) =>
        var t := d.(widths := d.widths[nickname := width]);
        Some((if u in d.users then WithUser(t, u, d.users[u].(handle := Some(Handle(nickname, slot)))) else t,
              slot, width))
  }

  function SetSearchable(d: Tables, u: UserId, on: bool, hash: Option<string>): Tables {
    if u in d.users then
      WithUser(d, u, d.users[u].(searchable := on, searchHash := if on && hash.Some? then hash.value else ""))
    else d
  }

  function Erase(d: Tables, u: UserId, now: int): Tables {
    var t := if u in d.users then
        d.(cooldown := d.cooldown + [(d.users[u].phoneHash, now)],
           users := d.users[u := Account("", false, false, "", d.users[u].handle, Some(now))])
      else d;
    t.(bootstrap := d.bootstrap - {u}, backups := d.backups - {u},
       sessions := map t | t in d.sessions && d.sessions[t].0 != u :: d.sessions[t])
  }

  /** A pairing bootstrap is handed out once, and only for a live account that opted in. */
  function TakeBootstrap(d: Tables, u: UserId): (Tables, Option<string>) {
    if u in d.bootstrap && Live(d.users, u) && d.users[u].searchable
    then (d.(bootstrap := d.bootstrap - {u}), Some(d.bootstrap[u]))
    else (d, None)
  }

  function CheckBackup(d: Tables, u: UserId, auth: Lockout.Bytes, isPin: bool, now: int)
    : (Tables, Option<Lockout.Verdict>)
  {
    if u !in d.backups then (d, None)
    else
      var b := d.backups[u];
      var (row, verdict) := Lockout.Verify(RowOf(b), auth, isPin, now);
      (d.(backups := d.backups[u := b.(attempts := row.attempts, lockedUntil := row.lockedUntil)]), Some(verdict))
  }

  // ---- handlers ------------------------------------------------------------------------------

  /** Requests after parsing; a verified phone comes with the hash its approved code yields. */
  datatype Request =
    | Signup(hash: string)
    | VerifyPhone(hash: string, issued: Token)
    | ClaimUsername(session: Token, nickname: string)
    | Searchable(session: Token, on: bool, searchHash: Option<string>)
    | PutBootstrap(session: Token, link: string)
    | GetBootstrap(session: Token, target: UserId)
    | DeleteAccount(session: Token)
    | PutBackup(session: Token, upload: Upload)
    | RestoreBegin(hash: string, issued: Token, restore: Token)
    | RestoreComplete(restore: Token, auth: Lockout.Bytes, isPin: bool)

  datatype Reply =
    | Accepted
    | Session(user: UserId, token: Token)
    | Named(handle: string)
    | Link(text: string)
    | Restoring(session: Token, restore: Token, saltA: Bytes, saltPA: Bytes)
    | Restored(bundle: Upload)
    | WrongSecret(remaining: Option<nat>)
    | LockedFor(seconds: int)
    | BadRequest
    | Unauthorized
    | NotFound
    | Internal

  ghost function HandleSignup(d: Tables, hash: string, now: int): (Tables, Reply) {
    if InCooldown(d, hash, now) then (d, BadRequest) else (FindOrCreate(d, hash).0, Accepted)
  }

  ghost function HandleVerify(d: Tables, hash: string, issued: Token, now: int): (Tables, Reply) {
    if InCooldown(d, hash, now) then (d, BadRequest)
    else
      var (t, u) := FindOrCreate(d, hash);
      var v := MarkVerified(t, u);
      match AddSession(v, issued, u, now)
      case None => (v, Internal)
      case Some(w) => (w, Session(u, issued))
  }

  function HandleAccount(d: Tables, u: UserId, r: Request, now: int): (Tables, Reply)
    requires !r.Signup? && !r.VerifyPhone? && !r.RestoreBegin? && !r.RestoreComplete?
  {
    match r
    case ClaimUsername(_, nickname) =>
      (match Claim(d, u, nickname)
       case None => (d, BadRequest)
       case Some((t, slot, width)) => (t, Named(FormatHandle(nickname, slot, width))))
    case Searchable(_, on, hash) =>
      if on && (hash.None? || !IsDigest(hash.value)) then (d, BadRequest)
      else (SetSearchable(d, u, on, hash), Accepted)
    case PutBootstrap(_, link) =>
      if Blank(link) then (d, BadRequest) else (d.(bootstrap := d.bootstrap[u := link]), Accepted)
    case GetBootstrap(_, target) =>
      var (t, link) := TakeBootstrap(d, target);
      (t, if link.Some? then Link(link.value) else NotFound)
    case DeleteAccount(_) => (Erase(d, u, now), Accepted)
    case PutBackup(_, upload) =>
      if !ValidUpload(upload) then (d, BadRequest)
      else (d.(backups := d.backups[u := Backup(upload, 0, None)]), Accepted)
  }

  /** A phone search hash is sixty-four hexadecimal characters. */
  predicate IsDigest(s: string) {
    |s| == 64 && forall i :: 0 <= i < |s| ==>
      '0' <= s[i] <= '9' || 'a' <= s[i] <= 'f' || 'A' <= s[i] <= 'F'
  }

  ghost function HandleRestoreBegin(d: Tables, hash: string, issued: Token, restore: Token, now: int): (Tables, Reply) {
    match PhoneUser(d.users, hash)
    case None => (d, NotFound)
    case Some(u) =>
      if u !in d.backups then (d, NotFound)
      else match AddSession(d, issued, u, now)
        case None => (d, Internal)
        case Some(t) =>
          (t.(restores := t.restores[restore := (u, now + RESTORE_TTL)]),
           Restoring(issued, restore, d.backups[u].bundle.saltA, d.backups[u].bundle.saltPA))
  }

  /** An expired restore token is dropped when it is met, a good one when it has bought the bundle. */
  function HandleRestoreComplete(d: Tables, restore: Token, auth: Lockout.Bytes, isPin: bool, now: int)
    : (Tables, Reply)
  {
    match RestoreUser(d, restore, now)
    case None => (d.(restores := d.restores - {restore}), Unauthorized)
    case Some(u) =>
      if |auth| != 32 then (d, BadRequest)
      else
        var (t, verdict) := CheckBackup(d, u, auth, isPin, now);
        match verdict
        case None => (t, NotFound)
        case Some(Match) => (t.(restores := t.restores - {restore}), Restored(d.backups[u].bundle))
        case Some(WrongPin(remaining)) => (t, WrongSecret(Some(remaining)))
        case Some(WrongPhrase) => (t, WrongSecret(None))
        case Some(Locked(until)) => (t, LockedFor(if until - now > 1 then until - now else 1))
  }

  ghost function Serve(d: Tables, r: Request, now: int): (Tables, Reply) {
    match r
    case Signup(hash) => HandleSignup(d, hash, now)
    case VerifyPhone(hash, issued) => HandleVerify(d, hash, issued, now)
    case RestoreBegin(hash, issued, restore) => HandleRestoreBegin(d, hash, issued, restore, now)
    case RestoreComplete(restore, auth, isPin) => HandleRestoreComplete(d, restore, auth, isPin, now)
    case _ =>
      match SessionUser(d, r.session, now)
      case None => (d, Unauthorized)
      case Some(u) => HandleAccount(d, u, r, now)
  }

  /** The tables after a run of requests, each with the time it was served. */
  ghost function After(rs: seq<(Request, int)>): Tables {
    if rs == [] then EMPTY
    else Serve(After(rs[..|rs| - 1]), rs[|rs| - 1].0, rs[|rs| - 1].1).0
  }

  /** The clock never runs backwards. */
  ghost predicate Clock(rs: seq<(Request, int)>) {
    forall i, j :: 0 <= i < j < |rs| ==> rs[i].1 <= rs[j].1
  }
}
