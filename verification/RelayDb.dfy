/** The relay's database, its write-through statements, and what `open` reads back. */
module RelayDb {
  import opened Base
  import opened Wire
  import opened Limiter
  import opened Relay

  /** A `queues` row: no epoch for a mailbox, the current epoch for a group inbox. */
  datatype QueueRow = QueueRow(sendKey: Wire.Key, epoch: Option<nat>)

  datatype PendingRow = PendingRow(queueId: QueueId, messageId: MessageId, envelope: Envelope)

  /**
   * The three tables. `roster` is keyed by inbox and then by `ord`, `pending` by its
   * auto-incremented `seq`, whose next value is `nextSeq`.
   */
  datatype Db = Db(
    queues: map<QueueId, QueueRow>,
    roster: map<QueueId, map<nat, QueueId>>,
    pending: map<nat, PendingRow>,
    nextSeq: nat)

  const EMPTY_DB := Db(map[], map[], map[], 0)

  // ---- statements --------------------------------------------------------------------------

  function InsertQueue(db: Db, q: QueueId, key: Wire.Key, epoch: Option<nat>): Db {
    db.(queues := db.queues[q := QueueRow(key, epoch)])
  }

  function Members(db: Db, q: QueueId): map<nat, QueueId> {
    if q in db.roster then db.roster[q] else map[]
  }

  function InsertMember(db: Db, q: QueueId, ord: nat, member: QueueId): Db {
    db.(roster := db.roster[q := Members(db, q)[ord := member]])
  }

  function InsertRoster(db: Db, q: QueueId, roster: seq<QueueId>): Db {
    if roster == [] then db
    else InsertMember(InsertRoster(db, q, roster[..|roster| - 1]), q, |roster| - 1, roster[|roster| - 1])
  }

  function InsertPending(db: Db, q: QueueId, env: Envelope): Db {
    db.(pending := db.pending[db.nextSeq := PendingRow(q, env.messageId, env)], nextSeq := db.nextSeq + 1)
  }

  function InsertAll(db: Db, targets: seq<QueueId>, env: Envelope): Db {
    if targets == [] then db
    else InsertPending(InsertAll(db, targets[..|targets| - 1], env), targets[|targets| - 1], env)
  }

  /** `SET epoch = epoch + 1`: a NULL epoch stays NULL. */
  function BumpEpoch(db: Db, q: QueueId): Db {
    if q in db.queues && db.queues[q].epoch.Some? then
      db.(queues := db.queues[q := db.queues[q].(epoch := Some(db.queues[q].epoch.value + 1))])
    else db
  }

  function DeletePending(db: Db, q: QueueId, id: MessageId): Db {
    db.(pending := map k | k in db.pending && !(db.pending[k].queueId == q && db.pending[k].messageId == id)
                     :: db.pending[k])
  }

  /** The roster entries that name a mailbox, in roster order. */
  function Targets(s: State, roster: seq<QueueId>): seq<QueueId> {
    if roster == [] then []
    else
      var r, rest := roster[|roster| - 1], Targets(s, roster[..|roster| - 1]);
      if IsMailbox(s, r) then rest + [r] else rest
  }

  /** The database after a step, given the memory the step ran against. */
  function DbDo(s: State, db: Db, op: Op, now: int): Db {
    if Do(s, op, now).1 != Accepted then db
    else match op
      case OpCreateMailbox(q, key) => if q in s.queues then db else InsertQueue(db, q, key, None)
      case OpCreateGroupInbox(q, key, epoch, roster) =>
        if q in s.queues then db else InsertRoster(InsertQueue(db, q, key, Some(epoch)), q, roster)
      case OpSendToMailbox(q, _, env) => InsertPending(db, q, env)
      case OpSendToGroupInbox(q, kind, _, env) =>
        if q in s.queues && s.queues[q].kind.GroupInbox? then
          InsertAll(if kind.CommitAt? then BumpEpoch(db, q) else db,
                    Targets(s, s.queues[q].kind.fanOutTo), env)
        else db
      case OpAck(q, id) => DeletePending(db, q, id)
      case _ => db
  }

  // ---- reading back ------------------------------------------------------------------------

  /** The values of the keys below `n`, by ascending key: `ORDER BY` on an integer column. */
  function Ordered<T>(m: map<nat, T>, n: nat): seq<T> {
    if n == 0 then []
    else if n - 1 in m then Ordered(m, n - 1) + [m[n - 1]]
    else Ordered(m, n - 1)
  }

  /** A bound above every key. */
  ghost function Bound<T>(m: map<nat, T>): nat
    ensures forall k :: k in m ==> k < Bound(m)
  {
    if m == map[] then 0
    else
      var k :| k in m;
      var rest := Bound(m - {k});
      assert forall j :: j in m ==> j == k || j in m - {k};
      if k < rest then rest else k + 1
  }

  /** The rows of one queue among rows already in `seq` order. */
  function BacklogOf(rows: seq<PendingRow>, q: QueueId): seq<Stored> {
    if rows == [] then []
    else
      var r, rest := rows[|rows| - 1], BacklogOf(rows[..|rows| - 1], q);
      if r.queueId == q then rest + [StoredOf(r.envelope)] else rest
  }

  function RowBytes(rows: seq<PendingRow>): nat {
    if rows == [] then 0 else RowBytes(rows[..|rows| - 1]) + rows[|rows| - 1].envelope.size
  }

  function Rows(db: Db): seq<PendingRow> {
    Ordered(db.pending, db.nextSeq)
  }

  ghost function KindOf(db: Db, q: QueueId): QueueKind
    requires q in db.queues
  {
    match db.queues[q].epoch
    case None => Mailbox(BacklogOf(Rows(db), q))
    case Some(epoch) => GroupInbox(epoch, Ordered(Members(db, q), Bound(Members(db, q))))
  }

  /** The relay state a fresh process rebuilds from the file. */
  ghost function OpenDb(db: Db, now: int): State {
    State(
      map q | q in db.queues :: QueueEntry(db.queues[q].sendKey, KindOf(db, q), Window(0, now)),
      map[], RowBytes(Rows(db)), {}, map[])
  }

  // ---- the mirror invariant ----------------------------------------------------------------

  ghost predicate EntryMirrors(e: QueueEntry, db: Db, q: QueueId)
    requires q in db.queues
  {
    e.sendKey == db.queues[q].sendKey && e.kind == KindOf(db, q)
  }

  /** The file holds what memory holds, and nothing else. */
  ghost predicate Mirrors(s: State, db: Db) {
    && s.queues.Keys == db.queues.Keys
    && db.roster.Keys <= db.queues.Keys
    && (forall q :: q in s.queues ==> EntryMirrors(s.queues[q], db, q))
    && s.storage == RowBytes(Rows(db))
    && (forall k :: k in db.pending ==> k < db.nextSeq)
    && (forall k :: k in db.pending ==> db.pending[k].messageId == db.pending[k].envelope.messageId)
    && (forall k :: k in db.pending ==> IsMailbox(s, db.pending[k].queueId))
  }

  /** Opening a mirroring file yields the restarted memory, up to the network's own channels. */
  lemma OpenRestores(s: State, db: Db, now: int)
    requires Mirrors(s, db)
    ensures OpenDb(db, now).(closed := s.closed, sent := s.sent) == Restarted(s, now)
  {
    var t := OpenDb(db, now);
    assert t.queues.Keys == db.queues.Keys == s.queues.Keys;
    assert t.queues == Restarted(s, now).queues;
  }

  // ---- reading after writing ---------------------------------------------------------------

  lemma {:induction false} OrderedInsert<T>(m: map<nat, T>, n: nat, x: T, k: nat)
    requires k <= n
    ensures Ordered(m[n := x], k) == Ordered(m, k)
  {
    if k > 0 {
      OrderedInsert(m, n, x, k - 1);
    }
  }

  /** Reading past every key adds nothing. */
  lemma {:induction false} OrderedBeyond<T>(m: map<nat, T>, n: nat, k: nat)
    requires n <= k && forall j :: j in m ==> j < n
    ensures Ordered(m, k) == Ordered(m, n)
  {
    if n < k {
      OrderedBeyond(m, n, k - 1);
    }
  }

  lemma RowsInsert(db: Db, q: QueueId, env: Envelope)
    ensures Rows(InsertPending(db, q, env)) == Rows(db) + [PendingRow(q, env.messageId, env)]
  {
    OrderedInsert(db.pending, db.nextSeq, PendingRow(q, env.messageId, env), db.nextSeq);
  }

  lemma RowSnoc(rows: seq<PendingRow>, r: PendingRow, q: QueueId)
    ensures RowBytes(rows + [r]) == RowBytes(rows) + r.envelope.size
    ensures BacklogOf(rows + [r], q) ==
            if r.queueId == q then BacklogOf(rows, q) + [StoredOf(r.envelope)] else BacklogOf(rows, q)
  {
    assert (rows + [r])[..|rows|] == rows;
  }

  lemma {:induction false} WithoutSnoc(xs: seq<Stored>, x: Stored, id: MessageId)
    ensures Without(xs + [x], id) == if x.messageId == id then Without(xs, id) else Without(xs, id) + [x]
    ensures Freed(xs + [x], id) == if x.messageId == id then Freed(xs, id) + x.envelope.size else Freed(xs, id)
  {
    assert (xs + [x])[..|xs|] == xs;
  }

  /** Deleting by queue and id is, read back in order, exactly the in-memory removal. */
  lemma {:induction false} OrderedDelete(db: Db, q: QueueId, id: MessageId, n: nat, r: QueueId)
    requires forall k :: k in db.pending ==> db.pending[k].messageId == db.pending[k].envelope.messageId
    ensures
      var before, after := Ordered(db.pending, n), Ordered(DeletePending(db, q, id).pending, n);
      && BacklogOf(after, r) == (if r == q then Without(BacklogOf(before, r), id) else BacklogOf(before, r))
      && RowBytes(after) + Freed(BacklogOf(before, q), id) == RowBytes(before)
  {
    if n > 0 {
      OrderedDelete(db, q, id, n - 1, r);
      if n - 1 in db.pending {
        var before, after := Ordered(db.pending, n - 1), Ordered(DeletePending(db, q, id).pending, n - 1);
        DeleteRow(before, after, db.pending[n - 1], q, id, r);
      }
    }
  }

  /** The deletion taken one row further: the row goes, or stays at the end of both. */
  lemma DeleteRow(
    before: seq<PendingRow>, after: seq<PendingRow>, row: PendingRow, q: QueueId, id: MessageId, r: QueueId)
    requires BacklogOf(after, r) == (if r == q then Without(BacklogOf(before, r), id) else BacklogOf(before, r))
    requires RowBytes(after) + Freed(BacklogOf(before, q), id) == RowBytes(before)
    requires row.messageId == row.envelope.messageId
    ensures
      var before', after' := before + [row], if row.queueId == q && row.messageId == id then after else after + [row];
      && BacklogOf(after', r) == (if r == q then Without(BacklogOf(before', r), id) else BacklogOf(before', r))
      && RowBytes(after') + Freed(BacklogOf(before', q), id) == RowBytes(before')
  {
    hide BacklogOf, RowBytes, Without, Freed;
    RowSnoc(before, row, r);
    RowSnoc(before, row, q);
    RowSnoc(after, row, r);
    WithoutSnoc(BacklogOf(before, q), StoredOf(row.envelope), id);
  }

  lemma {:induction false} RosterReads(db: Db, q: QueueId, roster: seq<QueueId>)
    requires Members(db, q) == map[]
    ensures
      var t := InsertRoster(db, q, roster);
      && t == db.(roster := t.roster)
      && t.roster.Keys <= db.roster.Keys + {q}
      && (forall r :: r != q ==> Members(t, r) == Members(db, r))
      && (forall k :: k in Members(t, q) <==> 0 <= k < |roster|)
      && Ordered(Members(t, q), |roster|) == roster
  {
    hide Members, InsertMember;
    if roster != [] {
      var init, last := roster[..|roster| - 1], roster[|roster| - 1];
      RosterReads(db, q, init);
      var u := InsertRoster(db, q, init);
      MemberInserted(u, q, |init|, last);
      OrderedInsert(Members(u, q), |init|, last, |init|);
      assert roster == init + [last];
    }
  }

  lemma MemberInserted(db: Db, q: QueueId, ord: nat, member: QueueId)
    ensures
      var t := InsertMember(db, q, ord, member);
      && t == db.(roster := t.roster) && t.roster.Keys == db.roster.Keys + {q}
      && (forall r :: r != q ==> Members(t, r) == Members(db, r))
      && Members(t, q) == Members(db, q)[ord := member]
  {
  }

  lemma RosterReadsAll(m: map<nat, QueueId>, roster: seq<QueueId>)
    requires forall k :: k in m <==> 0 <= k < |roster|
    requires Ordered(m, |roster|) == roster
    ensures Ordered(m, Bound(m)) == roster
  {
    if roster != [] {
      assert |roster| - 1 in m;
    }
    OrderedBeyond(m, |roster|, Bound(m));
  }

  // ---- every statement keeps the mirror ----------------------------------------------------

  /** What was opened mirrors its file again, whichever state the file was written for. */
  lemma OpenMirrors(s: State, db: Db, now: int)
    requires Mirrors(s, db)
    ensures Mirrors(OpenDb(db, now), db)
  {
    OpenRestores(s, db, now);
    MirrorsIgnoresVolatile(s, OpenDb(db, now), db);
  }

  /** Rate windows, subscribers and channels are not mirrored. */
  lemma MirrorsIgnoresVolatile(s: State, t: State, db: Db)
    requires Mirrors(s, db) && t.queues.Keys == s.queues.Keys && t.storage == s.storage
    requires forall q :: q in s.queues ==> t.queues[q] == s.queues[q].(window := t.queues[q].window)
    ensures Mirrors(t, db)
  {
    forall q | q in t.queues
      ensures EntryMirrors(t.queues[q], db, q)
    {
      assert EntryMirrors(s.queues[q], db, q);
    }
  }

  lemma InsertPendingKind(db: Db, r: QueueId, env: Envelope, q: QueueId)
    requires q in db.queues
    ensures KindOf(InsertPending(db, r, env), q) ==
            if q == r && db.queues[q].epoch.None? then Mailbox(BacklogOf(Rows(db), q) + [StoredOf(env)])
            else KindOf(db, q)
  {
    RowsInsert(db, r, env);
    RowSnoc(Rows(db), PendingRow(r, env.messageId, env), q);
  }

  lemma DepositEntries(s: State, db: Db, r: QueueId, env: Envelope, q: QueueId)
    requires Mirrors(s, db) && IsMailbox(s, r) && q in s.queues
    ensures EntryMirrors(PushAndNotify(s, r, env).queues[q], InsertPending(db, r, env), q)
  {
    assert EntryMirrors(s.queues[q], db, q);
    InsertPendingKind(db, r, env, q);
  }

  lemma DepositMirrors(s: State, db: Db, r: QueueId, env: Envelope)
    requires Mirrors(s, db)
    ensures Mirrors(PushAndNotify(s, r, env), if IsMailbox(s, r) then InsertPending(db, r, env) else db)
  {
    hide EntryMirrors, BacklogOf, Ordered, Open, HandAll;
    if IsMailbox(s, r) {
      var t, u := PushAndNotify(s, r, env), InsertPending(db, r, env);
      assert t.storage == RowBytes(Rows(u)) by {
        RowsInsert(db, r, env);
        RowSnoc(Rows(db), PendingRow(r, env.messageId, env), r);
      }
      forall q | q in t.queues
        ensures EntryMirrors(t.queues[q], u, q)
      {
        DepositEntries(s, db, r, env, q);
      }
    }
  }

  lemma {:induction false} TargetsStable(s: State, t: State, roster: seq<QueueId>)
    requires forall q :: IsMailbox(t, q) <==> IsMailbox(s, q)
    ensures Targets(t, roster) == Targets(s, roster)
  {
    if roster != [] {
      TargetsStable(s, t, roster[..|roster| - 1]);
    }
  }

  lemma DepositKeepsKinds(s: State, r: QueueId, env: Envelope)
    ensures forall q :: IsMailbox(PushAndNotify(s, r, env), q) <==> IsMailbox(s, q)
  {
  }

  lemma {:induction false} FanOutMirrors(s: State, db: Db, roster: seq<QueueId>, env: Envelope)
    requires Mirrors(s, db)
    ensures Mirrors(FanOut(s, roster, env), InsertAll(db, Targets(s, roster), env))
    ensures forall q :: IsMailbox(FanOut(s, roster, env), q) <==> IsMailbox(s, q)
  {
    hide Mirrors, IsMailbox, PushAndNotify, InsertPending;
    if roster != [] {
      var init, r := roster[..|roster| - 1], roster[|roster| - 1];
      FanOutMirrors(s, db, init, env);
      DepositMirrors(FanOut(s, init, env), InsertAll(db, Targets(s, init), env), r, env);
      DepositKeepsKinds(FanOut(s, init, env), r, env);
      var targets := Targets(s, init);
      assert (targets + [r])[..|targets|] == targets;
    }
  }

  lemma AdvanceMirrors(s: State, db: Db, q: QueueId, kind: SendKind)
    requires Mirrors(s, db) && q in s.queues && s.queues[q].kind.GroupInbox?
    ensures Mirrors(Advance(s, q, kind), if kind.CommitAt? then BumpEpoch(db, q) else db)
  {
    if kind.CommitAt? {
      var t, u := Advance(s, q, kind), BumpEpoch(db, q);
      forall r | r in t.queues
        ensures EntryMirrors(t.queues[r], u, r)
      {
        AdvanceEntries(s, db, q, kind, r);
      }
      hide EntryMirrors, RowBytes, Ordered;
    }
  }

  lemma AdvanceEntries(s: State, db: Db, q: QueueId, kind: SendKind, r: QueueId)
    requires Mirrors(s, db) && q in s.queues && s.queues[q].kind.GroupInbox? && kind.CommitAt? && r in s.queues
    ensures r in BumpEpoch(db, q).queues && EntryMirrors(Advance(s, q, kind).queues[r], BumpEpoch(db, q), r)
  {
    assert EntryMirrors(s.queues[q], db, q) && EntryMirrors(s.queues[r], db, r);
    assert Rows(BumpEpoch(db, q)) == Rows(db);
    assert Members(BumpEpoch(db, q), r) == Members(db, r);
  }

  lemma AckEntries(s: State, db: Db, q: QueueId, id: MessageId, r: QueueId)
    requires Mirrors(s, db) && IsMailbox(s, q) && r in s.queues
    ensures EntryMirrors(Ack(s, q, id).queues[r], DeletePending(db, q, id), r)
  {
    assert EntryMirrors(s.queues[r], db, r);
    OrderedDelete(db, q, id, db.nextSeq, r);
  }

  lemma AckStorage(s: State, db: Db, q: QueueId, id: MessageId)
    requires Mirrors(s, db) && IsMailbox(s, q)
    ensures Ack(s, q, id).storage == RowBytes(Rows(DeletePending(db, q, id)))
  {
    assert EntryMirrors(s.queues[q], db, q);
    OrderedDelete(db, q, id, db.nextSeq, q);
  }

  lemma AckMirrors(s: State, db: Db, q: QueueId, id: MessageId)
    requires Mirrors(s, db)
    ensures Mirrors(Ack(s, q, id), DeletePending(db, q, id))
  {
    var t, u := Ack(s, q, id), DeletePending(db, q, id);
    if IsMailbox(s, q) {
      AckStorage(s, db, q, id);
      hide EntryMirrors, RowBytes, Ordered, Without, Freed;
      forall r | r in t.queues
        ensures EntryMirrors(t.queues[r], u, r)
      {
        AckEntries(s, db, q, id, r);
      }
    } else {
      assert u.pending == db.pending;
    }
  }

  lemma {:induction false} NoRowsNoBacklog(m: map<nat, PendingRow>, n: nat, q: QueueId)
    requires forall k :: k in m ==> m[k].queueId != q
    ensures BacklogOf(Ordered(m, n), q) == []
  {
    if n > 0 {
      NoRowsNoBacklog(m, n - 1, q);
      if n - 1 in m {
        RowSnoc(Ordered(m, n - 1), m[n - 1], q);
      }
    }
  }

  lemma CreateMailboxMirrors(s: State, db: Db, q: QueueId, key: Wire.Key, now: int)
    requires Mirrors(s, db) && q !in s.queues
    ensures Mirrors(CreateMailbox(s, q, key, now), InsertQueue(db, q, key, None))
  {
    var t, u := CreateMailbox(s, q, key, now), InsertQueue(db, q, key, None);
    forall r | r in t.queues
      ensures EntryMirrors(t.queues[r], u, r)
    {
      CreateMailboxEntries(s, db, q, key, now, r);
    }
    hide EntryMirrors, RowBytes, Ordered;
  }

  lemma CreateMailboxEntries(s: State, db: Db, q: QueueId, key: Wire.Key, now: int, r: QueueId)
    requires Mirrors(s, db) && q !in s.queues && (r == q || r in s.queues)
    ensures
      var u := InsertQueue(db, q, key, None);
      r in u.queues && EntryMirrors(CreateMailbox(s, q, key, now).queues[r], u, r)
  {
    if r == q {
      NoRowsNoBacklog(db.pending, db.nextSeq, q);
    } else {
      assert EntryMirrors(s.queues[r], db, r);
    }
  }

  lemma CreateGroupInboxMirrors(
    s: State, db: Db, q: QueueId, key: Wire.Key, epoch: nat, roster: seq<QueueId>, now: int)
    requires Mirrors(s, db) && q !in s.queues
    ensures Mirrors(CreateGroupInbox(s, q, key, epoch, roster, now),
                    InsertRoster(InsertQueue(db, q, key, Some(epoch)), q, roster))
  {
    var u := InsertRoster(InsertQueue(db, q, key, Some(epoch)), q, roster);
    RosterReads(InsertQueue(db, q, key, Some(epoch)), q, roster);
    var t := CreateGroupInbox(s, q, key, epoch, roster, now);
    forall r | r in t.queues
      ensures EntryMirrors(t.queues[r], u, r)
    {
      CreateGroupInboxEntries(s, db, q, key, epoch, roster, now, r);
    }
    hide EntryMirrors, RowBytes, Ordered;
  }

  lemma CreateGroupInboxEntries(
    s: State, db: Db, q: QueueId, key: Wire.Key, epoch: nat, roster: seq<QueueId>, now: int, r: QueueId)
    requires Mirrors(s, db) && q !in s.queues && (r == q || r in s.queues)
    ensures
      var u := InsertRoster(InsertQueue(db, q, key, Some(epoch)), q, roster);
      r in u.queues && EntryMirrors(CreateGroupInbox(s, q, key, epoch, roster, now).queues[r], u, r)
  {
    var db1 := InsertQueue(db, q, key, Some(epoch));
    var u := InsertRoster(db1, q, roster);
    RosterReads(db1, q, roster);
    if r == q {
      RosterReadsAll(Members(u, q), roster);
    } else {
      assert EntryMirrors(s.queues[r], db, r);
      assert Members(u, r) == Members(db, r);
    }
  }

  /** Every step carries the file along with memory. */
  lemma StepMirrors(s: State, db: Db, op: Op, now: int)
    requires Mirrors(s, db)
    ensures Mirrors(Do(s, op, now).0, DbDo(s, db, op, now))
  {
    match op
    case OpCreateMailbox(q, key) =>
      if q !in s.queues { CreateMailboxMirrors(s, db, q, key, now); }
    case OpCreateGroupInbox(q, key, epoch, roster) =>
      if q !in s.queues { CreateGroupInboxMirrors(s, db, q, key, epoch, roster, now); }
    case OpSubscribe(qs, tx) =>
      RegisterAllKeeps(s, qs, tx);
      MirrorsIgnoresVolatile(s, Subscribe(s, qs, tx), db);
    case OpSendToMailbox(q, tag, env) => SendToMailboxMirrors(s, db, op, now);
    case OpSendToGroupInbox(q, kind, tag, env) => SendToGroupInboxMirrors(s, db, op, now);
    case OpAck(q, id) => AckMirrors(s, db, q, id);
    case OpClose(_) => MirrorsIgnoresVolatile(s, Do(s, op, now).0, db);
    case OpRestart => MirrorsIgnoresVolatile(s, Restarted(s, now), db);
  }

  lemma ChargeMirrors(s: State, db: Db, q: QueueId, now: int)
    requires Mirrors(s, db) && q in s.queues
    ensures Mirrors(Charge(s, q, now).0, db)
  {
    MirrorsIgnoresVolatile(s, Charge(s, q, now).0, db);
  }

  lemma SendToMailboxMirrors(s: State, db: Db, op: Op, now: int)
    requires Mirrors(s, db) && op.OpSendToMailbox?
    ensures Mirrors(Do(s, op, now).0, DbDo(s, db, op, now))
  {
    hide Mirrors, PushAndNotify, InsertPending, WouldExceedStorage;
    if op.q in s.queues {
      ChargeMirrors(s, db, op.q, now);
      DepositMirrors(Charge(s, op.q, now).0, db, op.q, op.envelope);
    }
  }

  lemma SendToGroupInboxMirrors(s: State, db: Db, op: Op, now: int)
    requires Mirrors(s, db) && op.OpSendToGroupInbox?
    ensures Mirrors(Do(s, op, now).0, DbDo(s, db, op, now))
  {
    hide Mirrors, FanOut, InsertAll, BumpEpoch, WouldExceedStorage;
    if CheckGroupSend(s, op.q, op.kind, op.tag, op.envelope).None? {
      var s1, roster := Charge(s, op.q, now).0, s.queues[op.q].kind.fanOutTo;
      ChargeMirrors(s, db, op.q, now);
      AdvanceMirrors(s1, db, op.q, op.kind);
      var s2 := Advance(s1, op.q, op.kind);
      TargetsStable(s, s2, roster);
      FanOutMirrors(s2, if op.kind.CommitAt? then BumpEpoch(db, op.q) else db, roster, op.envelope);
    }
  }

  /**
   * A crash during a step leaves the file as it was before or as it is after; opening it then
   * rebuilds exactly the state before or after the step, and after it once the step has replied.
   */
  lemma CrashSafe(s: State, db: Db, op: Op, now: int, image: Db, later: int)
    requires Mirrors(s, db) && image in {db, DbDo(s, db, op, now)}
    ensures
      var t := Do(s, op, now).0;
      var before, after := Restarted(s, later), Restarted(t, later);
      var rebuilt := OpenDb(image, later);
      && (rebuilt == before.(closed := {}, sent := map[]) || rebuilt == after.(closed := {}, sent := map[]))
      && (image == DbDo(s, db, op, now) ==> rebuilt == after.(closed := {}, sent := map[]))
  {
    StepMirrors(s, db, op, now);
    OpenRestores(s, db, later);
    OpenRestores(Do(s, op, now).0, DbDo(s, db, op, now), later);
  }

  // ---- runs --------------------------------------------------------------------------------

  function RunDb(s: State, db: Db, steps: seq<Step>): Db {
    if steps == [] then db
    else
      var init, last := steps[..|steps| - 1], steps[|steps| - 1];
      DbDo(Run(s, init), RunDb(s, db, init), last.op, last.now)
  }

  /**
   * In every run, restarts included, opening the file rebuilds the durable state: queues, keys,
   * epochs, roster order, each backlog in order and the storage counter.
   */
  lemma {:induction false} WriteThrough(steps: seq<Step>, now: int)
    ensures
      var s, db := Run(EMPTY, steps), RunDb(EMPTY, EMPTY_DB, steps);
      && Mirrors(s, db)
      && OpenDb(db, now).(closed := s.closed, sent := s.sent) == Restarted(s, now)
  {
    if steps != [] {
      var init, last := steps[..|steps| - 1], steps[|steps| - 1];
      WriteThrough(init, now);
      StepMirrors(Run(EMPTY, init), RunDb(EMPTY, EMPTY_DB, init), last.op, last.now);
    }
    OpenRestores(Run(EMPTY, steps), RunDb(EMPTY, EMPTY_DB, steps), now);
  }
}
