/** The relay process: one object behind one lock, so each method is one atomic step. */
module RelayService {
  import opened Base
  import opened Wire
  import opened Limiter
  import opened Relay
  import opened RelayDb
  import opened Gate

  /** What the process does to the outside world, in order: database writes and pushes. */
  datatype Effect = Wrote(db: Db) | Handed(c: Chan, push: Push)

  /** At most one database write, ahead of every push, leaving `db1` in place of `db0`. */
  ghost predicate WriteFirst(before: seq<Effect>, after: seq<Effect>, db0: Option<Db>, db1: Option<Db>) {
    && before <= after
    && (forall i :: |before| <= i < |after| && after[i].Wrote? ==> i == |before| && db1 == Some(after[i].db))
    && (db1 != db0 ==> |before| < |after| && after[|before|].Wrote?)
  }

  /** The file as the effects leave it: the last one written. */
  function FileAfter(file: Db, effects: seq<Effect>): Db {
    if effects == [] then file
    else
      var e := effects[|effects| - 1];
      if e.Wrote? then e.db else FileAfter(file, effects[..|effects| - 1])
  }

  lemma {:induction false} OneWriteFirst(file: Db, effects: seq<Effect>)
    requires forall i :: 0 < i < |effects| ==> effects[i].Handed?
    ensures FileAfter(file, effects) == if effects != [] && effects[0].Wrote? then effects[0].db else file
  {
    if |effects| > 1 {
      OneWriteFirst(file, effects[..|effects| - 1]);
    }
  }

  /** The file after a step; a memory-only relay has none. */
  function DbAfter(db: Option<Db>, s: State, op: Op, now: int): Option<Db> {
    if db.None? then None else Some(DbDo(s, db.value, op, now))
  }

  /**
   * A crash at any point between two effects of a step leaves a file that opens as the state before
   * the step or as the state after it, and as the state after once anything was handed out or the
   * step is done. What it asks of the step is what every method of the relay promises.
   */
  lemma CrashAtAnyPoint(
    s: State, op: Op, now: int, file: Db, before: seq<Effect>, after: seq<Effect>, k: nat, later: int)
    requires Mirrors(s, file) && WriteFirst(before, after, Some(file), DbAfter(Some(file), s, op, now))
    requires |before| <= k <= |after|
    ensures
      var rebuilt := OpenDb(FileAfter(file, after[|before|..k]), later);
      var old', new' := Restarted(s, later), Restarted(Do(s, op, now).0, later);
      && (rebuilt == old'.(closed := {}, sent := map[]) || rebuilt == new'.(closed := {}, sent := map[]))
      && (k == |after| || (exists i :: |before| <= i < k && after[i].Handed?) ==>
            rebuilt == new'.(closed := {}, sent := map[]))
  {
    hide Do, DbDo, OpenDb, Mirrors, Restarted;
    var effects := after[|before|..k];
    forall i | 0 < i < |effects|
      ensures effects[i].Handed?
    {
      assert effects[i] == after[|before| + i];
    }
    OneWriteFirst(file, effects);
    CrashSafe(s, file, op, now, FileAfter(file, effects), later);
  }

  /** Both creation gates, in the order they are checked: a spent token stays spent. */
  function PassGates(
    spent: Spent, pow: Pow, key: Option<Wire.Key>, token: Option<Token>, solution: Solution, now: int)
    : (Spent, Pow, Option<Code>)
  {
    var (spent1, attested) := Attest(spent, key, token, now);
    if !attested then (spent1, pow, Some(InvalidAttestation))
    else
      var (pow1, solved) := Redeem(pow, solution);
      (spent1, pow1, if solved then None else Some(InvalidProofOfWork))
  }

  /** The token opens a gate configured with this key, after the checks made so far. */
  predicate TokenOpens(checks: seq<Check>, c: Check) {
    c.key.None?
    || (c.token.Some? && c.token.value.signer == c.key.value && c.now < c.token.value.expiresAt
        && !SpentLive(checks, c.token.value.nonce, c.now))
  }

  predicate SolutionOpens(ops: seq<PowOp>, s: Solution) {
    s.challenge in LastFew(AllIssued(ops), 10_000) && !UsedUp(ops, s.challenge) && s.zeroBits >= 16
  }

  /**
   * Over every run of both gates a queue is created exactly if token and solution open them; a bad token
   * leaves the challenge standing, and a bad solution still costs a good token and its own challenge.
   */
  lemma CreationAnswer(checks: seq<Check>, ops: seq<PowOp>, c: Check, s: Solution)
    requires ClockForward(checks + [c]) && FreshChallenges(ops)
    ensures
      var (spent, pow, error) := PassGates(SpentAfter(checks), PowRun(ops), c.key, c.token, s, c.now);
      && error == (if !TokenOpens(checks, c) then Some(InvalidAttestation)
                   else if !SolutionOpens(ops, s) then Some(InvalidProofOfWork)
                   else None)
      && (!TokenOpens(checks, c) ==> pow == PowRun(ops))
      && (TokenOpens(checks, c) ==> s.challenge !in pow.outstanding && (c.key.Some? ==> c.token.value.nonce in spent))
  {
    TokenAcceptedExactly(checks, c);
    SolutionAcceptedExactly(ops, s);
    hide SpentAfter, PowRun, SpentLive, UsedUp, LastFew, AllIssued, Prune;
  }

  class RelayState {
    var queues: map<QueueId, QueueEntry>
    var subscribers: map<QueueId, seq<Chan>>
    var storage: nat
    var closed: set<Chan>
    var sent: map<Chan, seq<Push>>
    var outstanding: map<Challenge, nat>
    var order: seq<Challenge>
    var spent: Spent
    var attestationKey: Option<Wire.Key>
    var db: Option<Db>
    ghost var log: seq<Effect>

    function Core(): State
      reads this
    {
      State(queues, subscribers, storage, closed, sent)
    }

    function PowTable(): Pow
      reads this
    {
      Pow(outstanding, order)
    }

    /** The file, if there is one, mirrors memory. */
    ghost predicate Valid()
      reads this
    {
      db.Some? ==> Mirrors(Core(), db.value)
    }

    constructor ()
      ensures Valid() && Core() == EMPTY && PowTable() == NO_POW && spent == map[] && db == None
    {
      queues, subscribers, storage, closed, sent := map[], map[], 0, {}, map[];
      outstanding, order, spent, attestationKey := map[], [], map[], None;
      db, log := None, [];
    }

    /** A file some earlier process left behind puts the new one in step with it. */
    constructor Open(file: Db, now: int)
      requires forall k :: k in file.pending ==> k < file.nextSeq
      ensures Core() == OpenDb(file, now) && PowTable() == NO_POW && spent == map[] && db == Some(file)
      ensures (exists s :: Mirrors(s, file)) ==> Valid()
    {
      var qs, bytes := ReadFile(file, now);
      queues, subscribers, storage, closed, sent := qs, map[], bytes, {}, map[];
      outstanding, order, spent, attestationKey := map[], [], map[], None;
      db, log := Some(file), [];
      new;
      assert Core() == OpenDb(file, now);
      if s :| Mirrors(s, file) {
        OpenMirrors(s, file, now);
      }
    }

    // ---- reading the file back ---------------------------------------------------------------

    /** Some bound above every key. */
    static method KeyBound(m: map<nat, QueueId>) returns (n: nat)
      ensures forall k :: k in m ==> k < n
    {
      n := 0;
      var rest := m.Keys;
      while rest != {}
        invariant rest <= m.Keys
        invariant forall k :: k in m && k !in rest ==> k < n
        decreases rest
      {
        var k :| k in rest;
        if n <= k { n := k + 1; }
        rest := rest - {k};
      }
    }

    /** Rows of one inbox by `ord`. */
    static method ReadRoster(m: map<nat, QueueId>) returns (members: seq<QueueId>)
      ensures members == Ordered(m, Bound(m))
    {
      var n := KeyBound(m);
      members := [];
      for ord := 0 to n
        invariant members == Ordered(m, ord)
      {
        if ord in m { members := members + [m[ord]]; }
      }
      if n <= Bound(m) { OrderedBeyond(m, n, Bound(m)); } else { OrderedBeyond(m, Bound(m), n); }
    }

    /** The queues and rosters, with mailboxes still empty. */
    static method ReadQueues(file: Db, now: int) returns (qs: map<QueueId, QueueEntry>)
      ensures qs.Keys == file.queues.Keys
      ensures forall q :: q in qs ==> qs[q] == EntryAt(file, q, now, 0)
    {
      qs := map[];
      var rest := file.queues.Keys;
      while rest != {}
        invariant rest <= file.queues.Keys
        invariant qs.Keys == file.queues.Keys - rest
        invariant forall q :: q in qs ==> qs[q] == EntryAt(file, q, now, 0)
        decreases rest
      {
        var q :| q in rest;
        var row := file.queues[q];
        var kind;
        if row.epoch.None? {
          kind := Mailbox([]);
        } else {
          var members := ReadRoster(Members(file, q));
          kind := GroupInbox(row.epoch.value, members);
        }
        qs := qs[q := QueueEntry(row.sendKey, kind, Window(0, now))];
        rest := rest - {q};
      }
    }

    static method ReadFile(file: Db, now: int) returns (qs: map<QueueId, QueueEntry>, bytes: nat)
      requires forall k :: k in file.pending ==> k < file.nextSeq
      ensures qs == OpenDb(file, now).queues && bytes == OpenDb(file, now).storage
    {
      qs := ReadQueues(file, now);
      bytes := 0;
      for n := 0 to file.nextSeq
        invariant qs.Keys == file.queues.Keys
        invariant forall q :: q in qs ==> qs[q] == EntryAt(file, q, now, n)
        invariant bytes == RowBytes(Ordered(file.pending, n))
      {
        if n in file.pending {
          bytes := bytes + file.pending[n].envelope.size;
          RowSnoc(Ordered(file.pending, n), file.pending[n], 0);
          qs := ReadRow(file, now, n, qs);
        }
      }
      assert qs == OpenDb(file, now).queues;
    }

    /** One pending row lands in its mailbox. */
    static method ReadRow(file: Db, now: int, n: nat, qs: map<QueueId, QueueEntry>)
      returns (qs': map<QueueId, QueueEntry>)
      requires n in file.pending && qs.Keys == file.queues.Keys
      requires forall q :: q in qs ==> qs[q] == EntryAt(file, q, now, n)
      ensures qs'.Keys == qs.Keys
      ensures forall q :: q in qs' ==> qs'[q] == EntryAt(file, q, now, n + 1)
    {
      var row := file.pending[n];
      qs' := qs;
      if row.queueId in qs && qs[row.queueId].kind.Mailbox? {
        var e := qs[row.queueId];
        qs' := qs[row.queueId := e.(kind := Mailbox(e.kind.pending + [StoredOf(row.envelope)]))];
      }
      forall q | q in qs'
        ensures qs'[q] == EntryAt(file, q, now, n + 1)
      {
        RowSnoc(Ordered(file.pending, n), row, q);
      }
    }

    /** The entry of `q` once the first `n` pending rows have been read. */
    static ghost function EntryAt(file: Db, q: QueueId, now: int, n: nat): QueueEntry
      requires q in file.queues
    {
      var row := file.queues[q];
      QueueEntry(row.sendKey,
        if row.epoch.None? then Mailbox(BacklogOf(Ordered(file.pending, n), q)) else KindOf(file, q),
        Window(0, now))
    }

    // ---- gates -------------------------------------------------------------------------------

    method IssuePowChallenge(c: Challenge)
      modifies this`outstanding, this`order
      ensures PowTable() == Issue(old(PowTable()), c)
    {
      while |order| >= MAX_OUTSTANDING_POW_CHALLENGES
        invariant Evict(PowTable()) == Evict(old(PowTable()))
        decreases |order|
      {
        var oldest := order[0];
        order := order[1..];
        outstanding := outstanding - {oldest};
      }
      outstanding := outstanding[c := DIFFICULTY];
      order := order + [c];
    }

    method ConsumeAttestation(token: Option<Token>, now: int) returns (ok: bool)
      modifies this`spent
      ensures (spent, ok) == Attest(old(spent), attestationKey, token, now)
    {
      if attestationKey.None? {
        return true;
      }
      if token.None? {
        return false;
      }
      var t := token.value;
      if now >= t.expiresAt || t.signer != attestationKey.value {
        return false;
      }
      spent := map n | n in spent && spent[n] > now :: spent[n];
      if t.nonce in spent {
        return false;
      }
      spent := spent[t.nonce := t.expiresAt];
      return true;
    }

    method ConsumePow(solution: Solution) returns (ok: bool)
      modifies this`outstanding
      ensures (PowTable(), ok) == Redeem(old(PowTable()), solution)
    {
      if solution.challenge !in outstanding {
        return false;
      }
      var difficulty := outstanding[solution.challenge];
      outstanding := outstanding - {solution.challenge};
      return solution.zeroBits >= difficulty;
    }

    // ---- creation ----------------------------------------------------------------------------

    /** The only place where the file changes. */
    method Persist(d: Db)
      modifies this`db, this`log
      ensures db == Some(d) && log == old(log) + [Wrote(d)]
    {
      db := Some(d);
      log := log + [Wrote(d)];
    }

    method ConsumeGates(solution: Solution, token: Option<Token>, now: int) returns (error: Option<Code>)
      modifies this`spent, this`outstanding
      ensures (spent, PowTable(), error) ==
              PassGates(old(spent), old(PowTable()), attestationKey, token, solution, now)
    {
      var attested := ConsumeAttestation(token, now);
      if !attested { return Some(InvalidAttestation); }
      var solved := ConsumePow(solution);
      return if solved then None else Some(InvalidProofOfWork);
    }

    method CreateMailbox(solution: Solution, token: Option<Token>, q: QueueId, key: Wire.Key, now: int)
      returns (error: Option<Code>)
      requires Valid() && q !in queues
      modifies this
      ensures Valid() && attestationKey == old(attestationKey)
      ensures (spent, PowTable(), error) ==
              PassGates(old(spent), old(PowTable()), old(attestationKey), token, solution, now)
      ensures error.Some? ==> Core() == old(Core()) && db == old(db)
      ensures error.None? ==>
        && Core() == Do(old(Core()), OpCreateMailbox(q, key), now).0
        && db == DbAfter(old(db), old(Core()), OpCreateMailbox(q, key), now)
      ensures WriteFirst(old(log), log, old(db), db)
    {
      error := ConsumeGates(solution, token, now);
      if error.None? {
        InstallMailbox(q, key, now);
      }
    }

    method InstallMailbox(q: QueueId, key: Wire.Key, now: int)
      requires Valid() && q !in queues
      modifies this`queues, this`db, this`log
      ensures Valid()
      ensures Core() == Do(old(Core()), OpCreateMailbox(q, key), now).0
      ensures db == DbAfter(old(db), old(Core()), OpCreateMailbox(q, key), now)
      ensures WriteFirst(old(log), log, old(db), db)
    {
      if db.Some? {
        CreateMailboxMirrors(Core(), db.value, q, key, now);
        Persist(InsertQueue(db.value, q, key, None));
      }
      queues := queues[q := QueueEntry(key, Mailbox([]), Window(0, now))];
    }

    method CreateGroupInbox(
      solution: Solution, token: Option<Token>, q: QueueId, key: Wire.Key,
      epoch: nat, roster: seq<QueueId>, now: int)
      returns (error: Option<Code>)
      requires Valid() && q !in queues
      modifies this
      ensures Valid() && attestationKey == old(attestationKey)
      ensures (spent, PowTable(), error) ==
              PassGates(old(spent), old(PowTable()), old(attestationKey), token, solution, now)
      ensures error.Some? ==> Core() == old(Core()) && db == old(db)
      ensures error.None? ==>
        && Core() == Do(old(Core()), OpCreateGroupInbox(q, key, epoch, roster), now).0
        && db == DbAfter(old(db), old(Core()), OpCreateGroupInbox(q, key, epoch, roster), now)
      ensures WriteFirst(old(log), log, old(db), db)
    {
      error := ConsumeGates(solution, token, now);
      if error.None? {
        InstallGroupInbox(q, key, epoch, roster, now);
      }
    }

    method InstallGroupInbox(q: QueueId, key: Wire.Key, epoch: nat, roster: seq<QueueId>, now: int)
      requires Valid() && q !in queues
      modifies this`queues, this`db, this`log
      ensures Valid()
      ensures Core() == Do(old(Core()), OpCreateGroupInbox(q, key, epoch, roster), now).0
      ensures db == DbAfter(old(db), old(Core()), OpCreateGroupInbox(q, key, epoch, roster), now)
      ensures WriteFirst(old(log), log, old(db), db)
    {
      if db.Some? {
        CreateGroupInboxMirrors(Core(), db.value, q, key, epoch, roster, now);
        var tx := InboxTransaction(db.value, q, key, epoch, roster);
        Persist(tx);
      }
      queues := queues[q := QueueEntry(key, GroupInbox(epoch, roster), Window(0, now))];
    }

    /** The working copy of the creating transaction; it reaches the file only at its commit. */
    static method InboxTransaction(file: Db, q: QueueId, key: Wire.Key, epoch: nat, roster: seq<QueueId>)
      returns (tx: Db)
      ensures tx == InsertRoster(InsertQueue(file, q, key, Some(epoch)), q, roster)
    {
      tx := InsertQueue(file, q, key, Some(epoch));
      for ord := 0 to |roster|
        invariant tx == InsertRoster(InsertQueue(file, q, key, Some(epoch)), q, roster[..ord])
      {
        tx := InsertMember(tx, q, ord, roster[ord]);
        assert roster[..ord + 1][..ord] == roster[..ord];
      }
      assert roster[..|roster|] == roster;
    }

    // ---- subscribing and pushing -------------------------------------------------------------

    /** A channel send: it fails, and hands over nothing, once the receiver is gone. */
    method TrySend(c: Chan, p: Push) returns (ok: bool)
      modifies this`sent, this`log
      ensures ok == (c !in closed)
      ensures sent == if ok then Hand(old(sent), c, [p]) else old(sent)
      ensures log == if ok then old(log) + [Handed(c, p)] else old(log)
    {
      ok := c !in closed;
      if ok {
        sent := sent[c := (if c in sent then sent[c] else []) + [p]];
        log := log + [Handed(c, p)];
      }
    }

    method Subscribe(qs: seq<QueueId>, tx: Chan)
      requires Valid()
      modifies this`subscribers, this`sent, this`log
      ensures Valid() && Core() == Relay.Subscribe(old(Core()), qs, tx)
      ensures WriteFirst(old(log), log, db, db)
    {
      ghost var s0 := Core();
      for i := 0 to |qs|
        invariant Core() == RegisterAll(s0, qs[..i], tx)
        invariant queues == s0.queues && closed == s0.closed && sent == s0.sent && log == old(log)
      {
        Register(qs[i], tx);
        assert qs[..i + 1][..i] == qs[..i];
      }
      assert qs[..|qs|] == qs;
      if db.Some? {
        MirrorsIgnoresVolatile(s0, Core(), db.value);
      }
      BacklogsOfQueues(s0, Core(), qs);
      DrainBacklogs(qs, tx);
      if db.Some? {
        MirrorsIgnoresVolatile(s0, Core(), db.value);
      }
    }

    method Register(q: QueueId, tx: Chan)
      modifies this`subscribers
      ensures Core() == Relay.Register(old(Core()), q, tx)
    {
      var subs := if q in subscribers then subscribers[q] else [];
      var kept: seq<Chan> := [];
      for i := 0 to |subs|
        invariant kept == Except(Relay.Open(subs[..i], closed), tx)
      {
        assert subs[..i + 1][..i] == subs[..i];
        var open := Relay.Open(subs[..i], closed);
        assert (open + [subs[i]])[..|open|] == open;
        if subs[i] !in closed && subs[i] != tx {
          kept := kept + [subs[i]];
        }
      }
      assert subs[..|subs|] == subs;
      subscribers := subscribers[q := kept + [tx]];
    }

    /** The unacked backlogs go to the subscribing connection; a dead one ends the drain. */
    method DrainBacklogs(qs: seq<QueueId>, tx: Chan)
      modifies this`sent, this`log
      ensures sent == if tx in closed then old(sent) else Hand(old(sent), tx, Backlogs(old(Core()), qs))
      ensures OnlyHanded(old(log), log)
    {
      ghost var s0 := Core();
      for i := 0 to |qs|
        invariant sent == if tx in closed then s0.sent else Hand(s0.sent, tx, Backlogs(s0, qs[..i]))
        invariant OnlyHanded(old(log), log)
      {
        assert qs[..i + 1][..i] == qs[..i];
        var q := qs[i];
        if q in queues && queues[q].kind.Mailbox? {
          HandConcat(s0.sent, tx, Backlogs(s0, qs[..i]), Pushes(q, Pending(s0, q)));
          var ok := DrainOne(q, queues[q].kind.pending, tx);
          if !ok {
            return;
          }
        } else {
          assert Pushes(q, Pending(s0, q)) == [];
          assert Backlogs(s0, qs[..i + 1]) == Backlogs(s0, qs[..i]);
        }
      }
      assert qs[..|qs|] == qs;
    }

    method DrainOne(q: QueueId, pending: seq<Stored>, tx: Chan) returns (ok: bool)
      modifies this`sent, this`log
      ensures sent == if tx in closed then old(sent) else Hand(old(sent), tx, Pushes(q, pending))
      ensures !ok ==> tx in closed
      ensures OnlyHanded(old(log), log)
    {
      for j := 0 to |pending|
        invariant sent == if tx in closed then old(sent) else Hand(old(sent), tx, Pushes(q, pending[..j]))
        invariant OnlyHanded(old(log), log)
      {
        ok := TrySend(tx, Push(q, pending[j]));
        if !ok {
          return;
        }
        HandConcat(old(sent), tx, Pushes(q, pending[..j]), [Push(q, pending[j])]);
        assert Pushes(q, pending[..j + 1]) == Pushes(q, pending[..j]) + [Push(q, pending[j])];
      }
      assert pending[..|pending|] == pending;
      return true;
    }

    /** Stores, counts and pushes one message; dead subscribers are dropped on the way. */
    method PushAndNotify(q: QueueId, env: Envelope)
      modifies this`queues, this`subscribers, this`storage, this`sent, this`log
      ensures Core() == Relay.PushAndNotify(old(Core()), q, env)
      ensures OnlyHanded(old(log), log)
    {
      ghost var s0 := Core();
      if q in queues && queues[q].kind.Mailbox? {
        queues := queues[q := queues[q].(kind := Mailbox(queues[q].kind.pending + [StoredOf(env)]))];
        storage := storage + env.size;
      }
      if q in subscribers {
        var kept := NotifyAll(subscribers[q], Push(q, StoredOf(env)));
        subscribers := subscribers[q := kept];
      }
    }

    static ghost predicate OnlyHanded(before: seq<Effect>, after: seq<Effect>) {
      before <= after && forall i :: |before| <= i < |after| ==> after[i].Handed?
    }

    method NotifyAll(subs: seq<Chan>, p: Push) returns (kept: seq<Chan>)
      modifies this`sent, this`log
      ensures kept == Relay.Open(subs, closed)
      ensures sent == HandAll(old(sent), kept, p)
      ensures OnlyHanded(old(log), log)
    {
      kept := [];
      for i := 0 to |subs|
        invariant kept == Relay.Open(subs[..i], closed)
        invariant sent == HandAll(old(sent), kept, p)
        invariant OnlyHanded(old(log), log)
      {
        assert subs[..i + 1][..i] == subs[..i];
        var ok := TrySend(subs[i], p);
        if ok {
          assert (kept + [subs[i]])[..|kept|] == kept;
          kept := kept + [subs[i]];
        }
      }
      assert subs[..|subs|] == subs;
    }

    // ---- sending -----------------------------------------------------------------------------

    method CheckAndBumpRateLimit(q: QueueId, now: int) returns (ok: bool)
      requires q in queues
      modifies this`queues
      ensures (Core(), ok) == Charge(old(Core()), q, now)
    {
      var w := queues[q].window;
      if now - w.started >= MINUTE {
        w := Window(0, now);
      }
      ok := w.count < RATE_LIMIT_PER_QUEUE_PER_MINUTE;
      if ok {
        w := w.(count := w.count + 1);
      }
      queues := queues[q := queues[q].(window := w)];
    }

    method SendToMailbox(q: QueueId, tag: AuthTag, env: Envelope, now: int) returns (reply: Reply)
      requires Valid()
      modifies this
      ensures (Core(), reply) == Do(old(Core()), OpSendToMailbox(q, tag, env), now)
      ensures db == DbAfter(old(db), old(Core()), OpSendToMailbox(q, tag, env), now)
      ensures Valid() && WriteFirst(old(log), log, old(db), db)
    {
      hide Mirrors, InsertPending, Relay.PushAndNotify;
      ghost var s0 := Core();
      if db.Some? {
        SendToMailboxMirrors(s0, db.value, OpSendToMailbox(q, tag, env), now);
      }
      if env.size > MAX_MESSAGE_SIZE { return Rejected(MessageTooLarge); }
      if q !in queues || !queues[q].kind.Mailbox? { return Rejected(QueueNotFound); }
      if ComputeTag(queues[q].sendKey, q, env) != tag { return Rejected(Unauthorized); }
      if |queues[q].kind.pending| >= MAX_QUEUE_DEPTH { return Rejected(QueueFull); }
      var ok := CheckAndBumpRateLimit(q, now);
      if !ok { return Rejected(RateLimited); }
      if WouldExceedStorage(storage, env.size, 1) { return Rejected(StorageBoundExceeded); }
      if db.Some? {
        Persist(InsertPending(db.value, q, env));
      }
      PushAndNotify(q, env);
      return Accepted;
    }

    /** The roster entries that are mailboxes. */
    method StoredTargets(roster: seq<QueueId>) returns (targets: seq<QueueId>)
      ensures targets == Targets(Core(), roster)
    {
      targets := [];
      for i := 0 to |roster|
        invariant targets == Targets(Core(), roster[..i])
      {
        assert roster[..i + 1][..i] == roster[..i];
        if roster[i] in queues && queues[roster[i]].kind.Mailbox? {
          targets := targets + [roster[i]];
        }
      }
      assert roster[..|roster|] == roster;
    }

    /** The working copy of the sending transaction: the epoch advance and every copy, or neither. */
    static method SendTransaction(file: Db, q: QueueId, isCommit: bool, targets: seq<QueueId>, env: Envelope)
      returns (tx: Db)
      ensures tx == InsertAll(if isCommit then BumpEpoch(file, q) else file, targets, env)
    {
      tx := if isCommit then BumpEpoch(file, q) else file;
      ghost var base := tx;
      for i := 0 to |targets|
        invariant tx == InsertAll(base, targets[..i], env)
      {
        assert targets[..i + 1][..i] == targets[..i];
        tx := InsertPending(tx, targets[i], env);
      }
      assert targets[..|targets|] == targets;
    }

    method SendToGroupInbox(q: QueueId, kind: SendKind, tag: AuthTag, env: Envelope, now: int)
      returns (reply: Reply)
      requires Valid()
      modifies this
      ensures (Core(), reply) == Do(old(Core()), OpSendToGroupInbox(q, kind, tag, env), now)
      ensures db == DbAfter(old(db), old(Core()), OpSendToGroupInbox(q, kind, tag, env), now)
      ensures Valid() && WriteFirst(old(log), log, old(db), db)
    {
      ghost var s0 := Core();
      ghost var op := OpSendToGroupInbox(q, kind, tag, env);
      if db.Some? {
        SendToGroupInboxMirrors(s0, db.value, op, now);
      }
      if env.size > MAX_MESSAGE_SIZE { return Rejected(MessageTooLarge); }
      if q !in queues { return Rejected(GroupInboxNotFound); }
      if ComputeTag(queues[q].sendKey, q, env) != tag { return Rejected(Unauthorized); }
      if queues[q].kind.Mailbox? { return Rejected(GroupInboxNotFound); }
      var epoch, roster := queues[q].kind.epoch, queues[q].kind.fanOutTo;
      if kind.CommitAt? && kind.epoch != epoch { return Rejected(EpochConflict); }
      if WouldExceedStorage(storage, env.size, |roster|) { return Rejected(StorageBoundExceeded); }
      assert CheckGroupSend(s0, q, kind, tag, env) == None;
      var ok := CheckAndBumpRateLimit(q, now);
      if !ok { return Rejected(RateLimited); }
      Deliver(q, kind, env, s0);
      return Accepted;
    }

    /** The accepted half of a group send: transaction, epoch, fan-out. */
    method Deliver(q: QueueId, kind: SendKind, env: Envelope, ghost s0: State)
      requires q in queues && queues[q].kind.GroupInbox?
      requires forall r :: IsMailbox(Core(), r) <==> IsMailbox(s0, r)
      modifies this
      ensures Core() == FanOut(Advance(old(Core()), q, kind), old(queues)[q].kind.fanOutTo, env)
      ensures db == if old(db).None? then None
                    else Some(InsertAll(if kind.CommitAt? then BumpEpoch(old(db).value, q) else old(db).value,
                                        Targets(s0, old(queues)[q].kind.fanOutTo), env))
      ensures WriteFirst(old(log), log, old(db), db)
    {
      var roster := queues[q].kind.fanOutTo;
      var targets := StoredTargets(roster);
      TargetsStable(s0, Core(), roster);
      if db.Some? {
        var tx := SendTransaction(db.value, q, kind.CommitAt?, targets, env);
        Persist(tx);
      }
      if kind.CommitAt? {
        queues := queues[q := queues[q].(kind := GroupInbox(queues[q].kind.epoch + 1, roster))];
      }
      NotifyRoster(roster, env);
    }

    method NotifyRoster(roster: seq<QueueId>, env: Envelope)
      modifies this`queues, this`subscribers, this`storage, this`sent, this`log
      ensures Core() == FanOut(old(Core()), roster, env)
      ensures OnlyHanded(old(log), log)
    {
      ghost var s0 := Core();
      for i := 0 to |roster|
        invariant Core() == FanOut(s0, roster[..i], env)
        invariant OnlyHanded(old(log), log)
      {
        assert roster[..i + 1][..i] == roster[..i];
        PushAndNotify(roster[i], env);
      }
      assert roster[..|roster|] == roster;
    }

    /** Splits a backlog by an acked id: what stays, and the bytes of what goes. */
    static method Retain(pending: seq<Stored>, id: MessageId) returns (kept: seq<Stored>, freed: nat)
      ensures kept == Without(pending, id) && freed == Freed(pending, id)
    {
      kept, freed := [], 0;
      for i := 0 to |pending|
        invariant kept == Without(pending[..i], id) && freed == Freed(pending[..i], id)
      {
        assert pending[..i + 1][..i] == pending[..i];
        if pending[i].messageId != id {
          kept := kept + [pending[i]];
        } else {
          freed := freed + pending[i].envelope.size;
        }
      }
      assert pending[..|pending|] == pending;
    }

    method Ack(q: QueueId, id: MessageId)
      requires Valid()
      modifies this
      ensures Core() == Do(old(Core()), OpAck(q, id), 0).0
      ensures db == DbAfter(old(db), old(Core()), OpAck(q, id), 0)
      ensures Valid() && WriteFirst(old(log), log, old(db), db)
    {
      hide Mirrors, DeletePending, Without, Freed;
      ghost var s0 := Core();
      if db.Some? {
        AckMirrors(s0, db.value, q, id);
        Persist(DeletePending(db.value, q, id));
      }
      if q in queues && queues[q].kind.Mailbox? {
        var kept, freed := Retain(queues[q].kind.pending, id);
        queues := queues[q := queues[q].(kind := Mailbox(kept))];
        storage := SaturatingSub(storage, freed);
      }
    }
  }
}
