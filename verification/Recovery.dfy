/** Account recovery: a backup key sealed under a PIN and under a phrase, over ideal symbolic ciphers. */
module Recovery {
  import opened Base
  import opened Phrases

  type BackupKey = nat
  type Salt = nat
  type Nonce = nat
  type Payload = string

  /** Ideal derivation: keys agree only for the same secret and salt. */
  datatype Key = Derived(secret: string, salt: Salt) | Stored(bk: BackupKey)

  datatype Plaintext = OfKey(bk: BackupKey) | OfPayload(payload: Payload)

  datatype Sealed = Sealed(key: Key, nonce: Nonce, content: Plaintext)

  datatype AuthHash = AuthHash(secret: string, salt: Salt)

  function Open(key: Key, s: Sealed): Option<Plaintext> {
    if s.key == key then Some(s.content) else None
  }

  datatype Bundle = Bundle(
    blob: Sealed, wPin: Sealed, saltP: Salt, wPhrase: Sealed, saltF: Salt,
    authPin: AuthHash, saltA: Salt, authPhrase: AuthHash, saltPA: Salt)

  function WrapKey(secret: string, salt: Salt, nonce: Nonce, bk: BackupKey): Sealed {
    Sealed(Derived(secret, salt), nonce, OfKey(bk))
  }

  function UnwrapKey(secret: string, salt: Salt, wrapped: Sealed): Option<BackupKey> {
    match Open(Derived(secret, salt), wrapped)
    case Some(OfKey(bk)) => Some(bk)
    case _ => None
  }

  function SealBlob(bk: BackupKey, nonce: Nonce, payload: Payload): Sealed {
    Sealed(Stored(bk), nonce, OfPayload(payload))
  }

  function OpenBlob(bk: BackupKey, blob: Sealed): Option<Payload> {
    match Open(Stored(bk), blob)
    case Some(OfPayload(payload)) => Some(payload)
    case _ => None
  }

  /** The randomness one enrollment draws. */
  datatype Draw = Draw(
    bk: BackupKey, saltP: Salt, saltF: Salt, saltA: Salt, saltPA: Salt, blob: Nonce, pin: Nonce, phrase: Nonce)

  function BuildBundle(pin: string, phrase: string, r: Draw, payload: Payload): Option<Bundle> {
    if !ValidPin(pin) then None
    else Some(Bundle(
      SealBlob(r.bk, r.blob, payload),
      WrapKey(pin, r.saltP, r.pin, r.bk), r.saltP,
      WrapKey(phrase, r.saltF, r.phrase, r.bk), r.saltF,
      AuthHash(pin, r.saltA), r.saltA,
      AuthHash(phrase, r.saltPA), r.saltPA))
  }

  /** A PIN-shaped secret is tried on the PIN wrap, anything else on the phrase wrap. */
  function KeyFrom(b: Bundle, secret: string): Option<BackupKey> {
    if ValidPin(secret) then UnwrapKey(secret, b.saltP, b.wPin)
    else UnwrapKey(NormalizePhrase(secret), b.saltF, b.wPhrase)
  }

  /** What a new device recovers: the backup key and the payload it opens. */
  function Recover(b: Bundle, secret: string): Option<(BackupKey, Payload)> {
    match KeyFrom(b, secret)
    case None => None
    case Some(bk) =>
      match OpenBlob(bk, b.blob)
      case None => None
      case Some(payload) => Some((bk, payload))
  }

  /** The proof a restoring client shows the directory. */
  function AuthProof(secret: string, salt: Salt): AuthHash {
    AuthHash(if ValidPin(secret) then secret else NormalizePhrase(secret), salt)
  }

  /** Shown by a PIN, the proof goes against the PIN hash, else against the phrase hash. */
  predicate ProofAccepted(b: Bundle, secret: string) {
    if ValidPin(secret) then AuthProof(secret, b.saltA) == b.authPin
    else AuthProof(secret, b.saltPA) == b.authPhrase
  }

  // ---- the device's stored recovery state ----------------------------------------------------

  /** The two entries of the encrypted store that recovery keeps. */
  datatype Disk = Disk(bk: Option<BackupKey>, bundle: Option<Bundle>)

  datatype Op =
    | Enroll(pin: string, words: seq<string>, draw: Draw, payload: Payload)
    | Refresh(payload: Payload, nonce: Nonce)
    | RewrapPin(pin: string, saltP: Salt, saltA: Salt, nonce: Nonce)
    | MoveDevice(secret: string)

  /** Change PIN: the phrase wrap and the blob stay as they are. */
  function Rewrapped(b: Bundle, bk: BackupKey, pin: string, saltP: Salt, saltA: Salt, nonce: Nonce): Bundle {
    b.(wPin := WrapKey(pin, saltP, nonce, bk), saltP := saltP, authPin := AuthHash(pin, saltA), saltA := saltA)
  }

  function Do(d: Disk, op: Op): Disk {
    match op
    case Enroll(pin, words, draw, payload) =>
      var b := BuildBundle(pin, Join(words), draw, payload);
      if b.None? then d else Disk(Some(draw.bk), b)
    case Refresh(payload, nonce) =>
      if d.bk.None? || d.bundle.None? then d
      else d.(bundle := Some(d.bundle.value.(blob := SealBlob(d.bk.value, nonce, payload))))
    case RewrapPin(pin, saltP, saltA, nonce) =>
      if !ValidPin(pin) || d.bk.None? || d.bundle.None? then d
      else d.(bundle := Some(Rewrapped(d.bundle.value, d.bk.value, pin, saltP, saltA, nonce)))
    case MoveDevice(secret) =>
      // A failed restore leaves no new device, so the user stays with this one.
      if d.bundle.None? || Recover(d.bundle.value, secret).None? then d
      else Disk(Some(Recover(d.bundle.value, secret).value.0), d.bundle)
  }

  function After(ops: seq<Op>): Disk {
    if ops == [] then Disk(None, None) else Do(After(ops[..|ops| - 1]), ops[|ops| - 1])
  }

  /** What restoring on a new device comes to; a created one starts from the payload. */
  datatype NewDevice = Created(device: RecoveryStore, payload: Payload) | WrongRecoverySecret | StorageFailed

  class RecoveryStore {
    /** Absent when the engine runs without a database. */
    var disk: Option<Disk>

    constructor Persistent()
      ensures disk == Some(Disk(None, None))
    {
      disk := Some(Disk(None, None));
    }

    /** A new device: nothing is created unless the secret opens the bundle and the path is free. */
    static method NewFromBackup(bundle: Bundle, secret: string, pathTaken: bool) returns (r: NewDevice)
      ensures r.WrongRecoverySecret? <==> Recover(bundle, secret).None?
      ensures r.StorageFailed? <==> Recover(bundle, secret).Some? && pathTaken
      ensures r.Created? ==>
        && fresh(r.device)
        && r.device.disk == Some(Disk(Some(Recover(bundle, secret).value.0), Some(bundle)))
        && r.payload == Recover(bundle, secret).value.1
    {
      var bk := if ValidPin(secret) then UnwrapKey(secret, bundle.saltP, bundle.wPin)
                else UnwrapKey(NormalizePhrase(secret), bundle.saltF, bundle.wPhrase);
      if bk.None? {
        return WrongRecoverySecret;
      }
      var payload := OpenBlob(bk.value, bundle.blob);
      if payload.None? {
        return WrongRecoverySecret;
      }
      if pathTaken {
        return StorageFailed;
      }
      var d := new RecoveryStore.Persistent();
      d.disk := Some(Disk(bk, Some(bundle)));
      return Created(d, payload.value);
    }

    method BackupEnroll(pin: string, words: seq<string>, draw: Draw, payload: Payload) returns (bundle: Option<Bundle>)
      modifies this
      ensures disk == if old(disk).None? then None else Some(Do(old(disk).value, Enroll(pin, words, draw, payload)))
      ensures bundle.Some? <==> ValidPin(pin) && old(disk).Some?
      ensures bundle.Some? ==> disk.value.bundle == bundle
    {
      if !ValidPin(pin) || disk.None? {
        return None;
      }
      bundle := BuildBundle(pin, Join(words), draw, payload);
      disk := Some(Disk(Some(draw.bk), bundle));
    }

    method BackupBundleCurrent(payload: Payload, nonce: Nonce) returns (bundle: Option<Bundle>)
      modifies this
      ensures disk == if old(disk).None? then None else Some(Do(old(disk).value, Refresh(payload, nonce)))
      ensures bundle.Some? <==> old(disk).Some? && old(disk).value.bk.Some? && old(disk).value.bundle.Some?
      ensures bundle.Some? ==> disk.value.bundle == bundle
    {
      if disk.None? || disk.value.bk.None? || disk.value.bundle.None? {
        return None;
      }
      bundle := Some(disk.value.bundle.value.(blob := SealBlob(disk.value.bk.value, nonce, payload)));
      disk := Some(disk.value.(bundle := bundle));
    }

    method BackupVerifySecret(secret: string) returns (ok: bool)
      ensures ok <==> disk.Some? && disk.value.bundle.Some? && KeyFrom(disk.value.bundle.value, secret).Some?
    {
      if disk.None? || disk.value.bundle.None? {
        return false;
      }
      var b := disk.value.bundle.value;
      if ValidPin(secret) {
        ok := UnwrapKey(secret, b.saltP, b.wPin).Some?;
      } else {
        ok := UnwrapKey(NormalizePhrase(secret), b.saltF, b.wPhrase).Some?;
      }
    }

    method BackupRewrapPin(pin: string, saltP: Salt, saltA: Salt, nonce: Nonce) returns (bundle: Option<Bundle>)
      modifies this
      ensures disk == if old(disk).None? then None else Some(Do(old(disk).value, RewrapPin(pin, saltP, saltA, nonce)))
      ensures bundle.Some? <==>
        ValidPin(pin) && old(disk).Some? && old(disk).value.bk.Some? && old(disk).value.bundle.Some?
      ensures bundle.Some? ==> disk.value.bundle == bundle
    {
      if !ValidPin(pin) || disk.None? || disk.value.bk.None? || disk.value.bundle.None? {
        return None;
      }
      var bk := disk.value.bk.value;
      var b := disk.value.bundle.value;
      b := b.(wPin := WrapKey(pin, saltP, nonce, bk));
      b := b.(saltP := saltP);
      b := b.(authPin := AuthHash(pin, saltA));
      b := b.(saltA := saltA);
      disk := Some(disk.value.(bundle := Some(b)));
      return Some(b);
    }
  }

  // ---- what the user may count on ------------------------------------------------------------

  /** What the user was last told and chose: the PIN, the phrase shown once, and what was backed up. */
  datatype Kit = Kit(pin: string, words: seq<string>, bk: BackupKey, payload: Payload)

  function KitAfter(ops: seq<Op>): Option<Kit> {
    if ops == [] then None
    else
      var kit := KitAfter(ops[..|ops| - 1]);
      match ops[|ops| - 1]
      case Enroll(pin, words, draw, payload) => if ValidPin(pin) then Some(Kit(pin, words, draw.bk, payload)) else kit
      case Refresh(payload, _) => if kit.None? then kit else Some(kit.value.(payload := payload))
      case RewrapPin(pin, _, _, _) => if kit.None? || !ValidPin(pin) then kit else Some(kit.value.(pin := pin))
      case MoveDevice(_) => kit
  }

  /** Enrollment shows five words of the list: lower case, no spaces inside. */
  ghost predicate PhraseOk(words: seq<string>) {
    |words| == 5 && WordsOk(words) && Lowered(words) == words
  }

  ghost predicate OpsOk(ops: seq<Op>) {
    forall i :: 0 <= i < |ops| && ops[i].Enroll? ==> PhraseOk(ops[i].words)
  }

  /** The current PIN, or the phrase's words in order, with any spacing and capitals. */
  ghost predicate Unlocks(kit: Kit, secret: string) {
    if ValidPin(secret) then secret == kit.pin else Lowered(Words(secret)) == kit.words
  }

  ghost predicate Holds(d: Disk, kit: Kit) {
    && d.bk == Some(kit.bk) && d.bundle.Some?
    && ValidPin(kit.pin) && PhraseOk(kit.words)
    && var b := d.bundle.value;
       && b.blob.key == Stored(kit.bk) && b.blob.content == OfPayload(kit.payload)
       && b.wPin.key == Derived(kit.pin, b.saltP) && b.wPin.content == OfKey(kit.bk)
       && b.wPhrase.key == Derived(Join(kit.words), b.saltF) && b.wPhrase.content == OfKey(kit.bk)
       && b.authPin == AuthHash(kit.pin, b.saltA)
       && b.authPhrase == AuthHash(Join(kit.words), b.saltPA)
  }

  lemma HoldsOpens(d: Disk, kit: Kit, secret: string)
    requires Holds(d, kit)
    ensures Recover(d.bundle.value, secret) == if Unlocks(kit, secret) then Some((kit.bk, kit.payload)) else None
    ensures KeyFrom(d.bundle.value, secret).Some? <==> Unlocks(kit, secret)
    ensures ProofAccepted(d.bundle.value, secret) <==> Unlocks(kit, secret)
  {
    NormalizesTo(secret, kit.words);
  }

  lemma {:induction false} RunHolds(ops: seq<Op>)
    requires OpsOk(ops)
    ensures
      match KitAfter(ops)
      case None => After(ops) == Disk(None, None)
      case Some(kit) => Holds(After(ops), kit)
  {
    if ops != [] {
      var before := ops[..|ops| - 1];
      RunHolds(before);
      var op := ops[|ops| - 1];
      if op.MoveDevice? && KitAfter(before).Some? {
        HoldsOpens(After(before), KitAfter(before).value, op.secret);
      }
    }
  }

  /**
   * After any enrollments, blob refreshes, PIN changes and moves to a new device, a secret recovers the
   * backup key and the latest payload exactly when it is the current PIN or a spelling of the phrase,
   * and exactly then the directory accepts its proof.
   */
  lemma RecoveryStaysOpenable(ops: seq<Op>, secret: string)
    requires OpsOk(ops) && KitAfter(ops).Some?
    ensures
      var kit := KitAfter(ops).value;
      && After(ops).bundle.Some?
      && Recover(After(ops).bundle.value, secret) ==
         (if Unlocks(kit, secret) then Some((kit.bk, kit.payload)) else None)
      && (ProofAccepted(After(ops).bundle.value, secret) <==> Unlocks(kit, secret))
  {
    RunHolds(ops);
    HoldsOpens(After(ops), KitAfter(ops).value, secret);
  }

  /** The phrase as shown, and as typed with other spacing and capitals, always unlocks. */
  lemma TypedPhraseUnlocks(ops: seq<Op>, lead: string, pieces: seq<(string, string)>)
    requires OpsOk(ops) && KitAfter(ops).Some?
    requires AllWhite(lead) && SpellingOk(pieces) && |pieces| == |KitAfter(ops).value.words|
    requires forall i :: 0 <= i < |pieces| ==> Lower(pieces[i].0) == KitAfter(ops).value.words[i]
    ensures Unlocks(KitAfter(ops).value, lead + Spell(pieces))
  {
    RunHolds(ops);
    var kit := KitAfter(ops).value;
    var typed := lead + Spell(pieces);
    RespelledPhrase(lead, pieces, kit.words);
    NormalizesTo(typed, kit.words);
    if ValidPin(typed) {
      PinIsNoPhrase(typed, kit.words);
    }
  }

  /** After a PIN change the old PIN opens nothing of the current bundle, and the phrase is unaffected. */
  lemma SupersededPinFails(ops: seq<Op>, pin: string, saltP: Salt, saltA: Salt, nonce: Nonce, secret: string)
    requires OpsOk(ops) && KitAfter(ops).Some? && ValidPin(pin) && pin != KitAfter(ops).value.pin
    ensures
      var now := After(ops + [RewrapPin(pin, saltP, saltA, nonce)]);
      && now.bundle.Some? && After(ops).bundle.Some?
      && Recover(now.bundle.value, KitAfter(ops).value.pin) == None
      && !ProofAccepted(now.bundle.value, KitAfter(ops).value.pin)
      && (!ValidPin(secret) ==> Recover(now.bundle.value, secret) == Recover(After(ops).bundle.value, secret))
  {
    var next := ops + [RewrapPin(pin, saltP, saltA, nonce)];
    assert next[..|ops|] == ops;
    RunHolds(ops);
    RunHolds(next);
    HoldsOpens(After(next), KitAfter(next).value, KitAfter(ops).value.pin);
    HoldsOpens(After(next), KitAfter(next).value, secret);
    HoldsOpens(After(ops), KitAfter(ops).value, secret);
  }
}
