/** Recovery from end to end: a device's bundle, the directory that keeps it, and a new device. */
module Restore {
  import opened Base
  import opened Phrases
  import opened Directory
  import Lockout
  import Accounts
  import AccountLockout
  import Recovery

  /** What the bytes on the wire stand for. */
  datatype Reading = Reading(
    sealed: Bytes -> Recovery.Sealed, salt: Bytes -> Recovery.Salt, hash: Bytes -> Recovery.AuthHash)

  /** Ideal hashing: different digests are hashes of different things. */
  ghost predicate Ideal(read: Reading) {
    forall a, b :: |a| == 32 && |b| == 32 && read.hash(a) == read.hash(b) ==> a == b
  }

  function BundleOf(read: Reading, up: Upload): Recovery.Bundle {
    Recovery.Bundle(
      read.sealed(up.blob), read.sealed(up.wPin), read.salt(up.saltP), read.sealed(up.wPhrase), read.salt(up.saltF),
      read.hash(up.authPin), read.salt(up.saltA), read.hash(up.authPhrase), read.salt(up.saltPA))
  }

  /** The digest a client sends for a secret, computed from the salts it was given. */
  predicate IsProof(read: Reading, auth: Bytes, secret: string, saltA: Bytes, saltPA: Bytes) {
    |auth| == 32 && read.hash(auth) == Recovery.AuthProof(secret, read.salt(if ValidPin(secret) then saltA else saltPA))
  }

  /** A client's digest equals the stored one exactly if its secret is one the bundle answers to. */
  lemma DigestMatches(read: Reading, up: Upload, secret: string, auth: Bytes)
    requires Ideal(read) && ValidUpload(up) && IsProof(read, auth, secret, up.saltA, up.saltPA)
    ensures auth == (if ValidPin(secret) then up.authPin else up.authPhrase) <==>
            Recovery.ProofAccepted(BundleOf(read, up), secret)
  {
  }

  /** Stored bundles have passed the shape test. */
  lemma {:induction false} StoredIsValid(rs: seq<(Request, int)>, u: UserId)
    requires AccountLockout.LastUpload(rs, u).Some?
    ensures u in After(rs).backups && ValidUpload(AccountLockout.LastUpload(rs, u).value)
  {
    AccountLockout.StoredIsLastUpload(rs, u);
    hide Serve;
    var before := rs[..|rs| - 1];
    if !AccountLockout.Uploads(After(before), rs[|rs| - 1].0, rs[|rs| - 1].1, u) {
      StoredIsValid(before, u);
    }
  }

  /** The first step hands the owner of the phone a restore token and the salts of the last upload. */
  lemma BeginAnswers(rs: seq<(Request, int)>, u: UserId, hash: string, issued: Token, restore: Token, at: int)
    requires Clock(rs) && Accounts.NotBefore(rs, at)
    requires HasPhone(After(rs).users, u, hash) && AccountLockout.LastUpload(rs, u).Some?
    requires issued !in After(rs).sessions
    ensures
      var d, up := After(rs), AccountLockout.LastUpload(rs, u).value;
      var (t, reply) := Serve(d, RestoreBegin(hash, issued, restore), at);
      && reply == Restoring(issued, restore, up.saltA, up.saltPA)
      && t.backups == d.backups && t.restores == d.restores[restore := (u, at + RESTORE_TTL)]
  {
    Accounts.RunKeeps(rs, at);
    StoredIsValid(rs, u);
    AccountLockout.StoredIsLastUpload(rs, u);
    hide After, Accounts.HandlesOk, Accounts.CooldownOk, Accounts.SessionsLive, Accounts.AllLive;
  }

  /** A phone whose live account has no upload standing, or that has no live account, is told nothing. */
  lemma BeginRefused(rs: seq<(Request, int)>, hash: string, issued: Token, restore: Token, at: int)
    requires forall u :: HasPhone(After(rs).users, u, hash) ==> AccountLockout.LastUpload(rs, u).None?
    ensures Serve(After(rs), RestoreBegin(hash, issued, restore), at) == (After(rs), NotFound)
  {
    var found := PhoneUser(After(rs).users, hash);
    if found.Some? {
      AccountLockout.StoredIsLastUpload(rs, found.value);
    }
    hide After, AccountLockout.LastUpload;
  }

  /** The second step answers a proof made from the last upload's salts. */
  lemma CompleteAnswers(
    read: Reading, d: Tables, u: UserId, restore: Token, secret: string, auth: Bytes, now: int)
    requires Ideal(read) && RestoreUser(d, restore, now) == Some(u) && u in d.backups
    requires
      var up := d.backups[u].bundle;
      ValidUpload(up) && IsProof(read, auth, secret, up.saltA, up.saltPA)
    ensures
      var up := d.backups[u].bundle;
      var reply := Serve(d, RestoreComplete(restore, auth, ValidPin(secret)), now).1;
      && (reply.Restored? <==>
            && Recovery.ProofAccepted(BundleOf(read, up), secret)
            && (ValidPin(secret) ==> !Lockout.LockedAt(RowOf(d.backups[u]), now)))
      && (reply.Restored? ==> reply.bundle == up)
  {
    DigestMatches(read, d.backups[u].bundle, secret, auth);
    hide Lockout.Miscount, Recovery.ProofAccepted, IsProof, ValidUpload, BundleOf;
  }

  /**
   * Recovery works, and for no one else. Take any life of a device's recovery state and any run of the
   * directory in which the account's last upload is the device's current bundle. The owner of the phone
   * is given the salts; a secret's proof from them is answered with the bundle if and only if the secret
   * is the current PIN, with no lock in force, or a spelling of the phrase; and the bundle then gives a
   * new device the backup key and the latest payload.
   */
  lemma RestoreEndToEnd(
    read: Reading, ops: seq<Recovery.Op>, rs: seq<(Request, int)>, u: UserId,
    hash: string, issued: Token, restore: Token, at: int, secret: string, auth: Bytes, now: int)
    requires Ideal(read) && Recovery.OpsOk(ops) && Recovery.KitAfter(ops).Some?
    requires Clock(rs) && Accounts.NotBefore(rs, at) && at <= now < at + RESTORE_TTL
    requires HasPhone(After(rs).users, u, hash) && issued !in After(rs).sessions
    requires AccountLockout.LastUpload(rs, u).Some?
    requires
      var up := AccountLockout.LastUpload(rs, u).value;
      && Some(BundleOf(read, up)) == Recovery.After(ops).bundle
      && IsProof(read, auth, secret, up.saltA, up.saltPA)
    ensures
      var kit, up := Recovery.KitAfter(ops).value, AccountLockout.LastUpload(rs, u).value;
      var (begun, salts) := Serve(After(rs), RestoreBegin(hash, issued, restore), at);
      var reply := Serve(begun, RestoreComplete(restore, auth, ValidPin(secret)), now).1;
      && salts == Restoring(issued, restore, up.saltA, up.saltPA)
      && u in After(rs).backups
      && (reply.Restored? <==>
            && Recovery.Unlocks(kit, secret)
            && (ValidPin(secret) ==> !Lockout.LockedAt(RowOf(After(rs).backups[u]), now)))
      && (reply.Restored? ==>
            Recovery.Recover(BundleOf(read, reply.bundle), secret) == Some((kit.bk, kit.payload)))
  {
    BeginAnswers(rs, u, hash, issued, restore, at);
    StoredIsValid(rs, u);
    AccountLockout.StoredIsLastUpload(rs, u);
    Recovery.RecoveryStaysOpenable(ops, secret);
    hide Serve, After, Recovery.Recover, Recovery.After, Recovery.KitAfter, Recovery.Unlocks, Recovery.ProofAccepted,
      BundleOf, IsProof, Ideal, ValidUpload, AccountLockout.LastUpload, Lockout.LockedAt;
    var begun := Serve(After(rs), RestoreBegin(hash, issued, restore), at).0;
    CompleteAnswers(read, begun, u, restore, secret, auth, now);
  }
}
