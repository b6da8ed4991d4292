/** Conservation of the relay's storage counter over every run. */
module RelayStorage {
  import opened Base
  import opened Wire
  import opened Limiter
  import opened Relay

  function BytesIn(e: QueueEntry): nat {
    if e.kind.Mailbox? then Bytes(e.kind.pending) else 0
  }

  ghost function BytesMap(queues: map<QueueId, QueueEntry>): map<QueueId, nat> {
    map q | q in queues :: BytesIn(queues[q])
  }

  /** The summed ciphertext length of everything pending in any mailbox. */
  ghost function TotalBytes(queues: map<QueueId, QueueEntry>): nat {
    SumOf(BytesMap(queues))
  }

  ghost predicate StorageInv(s: State) {
    s.storage == TotalBytes(s.queues) <= MAX_STORAGE_BYTES
  }

  lemma TotalUpdate(queues: map<QueueId, QueueEntry>, q: QueueId, e: QueueEntry)
    ensures TotalBytes(queues[q := e]) ==
            TotalBytes(queues) + BytesIn(e) - if q in queues then BytesIn(queues[q]) else 0
  {
    assert BytesMap(queues[q := e]) == BytesMap(queues)[q := BytesIn(e)];
    SumUpdate(BytesMap(queues), q, BytesIn(e));
  }

  lemma BytesSnoc(xs: seq<Stored>, x: Stored)
    ensures Bytes(xs + [x]) == Bytes(xs) + x.envelope.size
  {
    assert (xs + [x])[..|xs|] == xs;
  }

  lemma {:induction false} BytesSplit(xs: seq<Stored>, id: MessageId)
    ensures Bytes(xs) == Bytes(Without(xs, id)) + Freed(xs, id)
  {
    if xs != [] {
      var init, x := xs[..|xs| - 1], xs[|xs| - 1];
      BytesSplit(init, id);
      BytesSnoc(Without(init, id), x);
    }
  }

  /** What an ack frees is part of what is counted, so its saturating subtraction is exact. */
  lemma AckFreesCounted(s: State, q: QueueId, id: MessageId)
    requires StorageInv(s)
    ensures Freed(Pending(s, q), id) <= s.storage
    ensures StorageInv(Ack(s, q, id))
    ensures Ack(s, q, id).storage == s.storage - Freed(Pending(s, q), id)
  {
    if IsMailbox(s, q) {
      SumWithout(BytesMap(s.queues), q);
      BytesSplit(Pending(s, q), id);
      TotalUpdate(s.queues, q, s.queues[q].(kind := Mailbox(Without(Pending(s, q), id))));
    }
  }

  lemma DepositBytes(s: State, q: QueueId, env: Envelope)
    requires s.storage == TotalBytes(s.queues)
    ensures
      var t := PushAndNotify(s, q, env);
      t.storage == TotalBytes(t.queues) && t.storage <= s.storage + env.size
  {
    if IsMailbox(s, q) {
      BytesSnoc(Pending(s, q), StoredOf(env));
      TotalUpdate(s.queues, q, s.queues[q].(kind := Mailbox(Pending(s, q) + [StoredOf(env)])));
    }
  }

  function Times(size: nat, n: nat): nat {
    if n == 0 then 0 else Times(size, n - 1) + size
  }

  lemma {:induction false} TimesIsProduct(size: nat, n: nat)
    ensures Times(size, n) == size * n
  {
    if n > 0 {
      TimesIsProduct(size, n - 1);
    }
  }

  lemma {:induction false} FanOutBytes(s: State, roster: seq<QueueId>, env: Envelope)
    requires s.storage == TotalBytes(s.queues)
    ensures
      var t := FanOut(s, roster, env);
      t.storage == TotalBytes(t.queues) && t.storage <= s.storage + Times(env.size, |roster|)
  {
    if roster != [] {
      var init := roster[..|roster| - 1];
      FanOutBytes(s, init, env);
      DepositBytes(FanOut(s, init, env), roster[|roster| - 1], env);
    }
  }

  lemma ChargeBytes(s: State, q: QueueId, now: int)
    requires q in s.queues
    ensures TotalBytes(Charge(s, q, now).0.queues) == TotalBytes(s.queues)
  {
    TotalUpdate(s.queues, q, Charge(s, q, now).0.queues[q]);
  }

  lemma SendToMailboxBytes(s: State, q: QueueId, tag: AuthTag, env: Envelope, now: int)
    requires StorageInv(s)
    ensures StorageInv(SendToMailbox(s, q, tag, env, now).0)
  {
    if q in s.queues {
      ChargeBytes(s, q, now);
      DepositBytes(Charge(s, q, now).0, q, env);
    }
  }

  lemma SendToGroupInboxBytes(
    s: State, q: QueueId, kind: SendKind, tag: AuthTag, env: Envelope, now: int)
    requires StorageInv(s)
    ensures StorageInv(SendToGroupInbox(s, q, kind, tag, env, now).0)
  {
    if CheckGroupSend(s, q, kind, tag, env).None? {
      var s1 := Charge(s, q, now).0;
      ChargeBytes(s, q, now);
      var s2 := Advance(s1, q, kind);
      TotalUpdate(s1.queues, q, s2.queues[q]);
      assert s2.queues == s1.queues[q := s2.queues[q]];
      FanOutBytes(s2, s.queues[q].kind.fanOutTo, env);
      TimesIsProduct(env.size, |s.queues[q].kind.fanOutTo|);
    }
  }

  lemma StepKeepsStorage(s: State, op: Op, now: int)
    requires StorageInv(s)
    ensures StorageInv(Do(s, op, now).0)
  {
    match op
    case OpCreateMailbox(q, key) =>
      TotalUpdate(s.queues, q, QueueEntry(key, Mailbox([]), Window(0, now)));
    case OpCreateGroupInbox(q, key, epoch, roster) =>
      TotalUpdate(s.queues, q, QueueEntry(key, GroupInbox(epoch, roster), Window(0, now)));
    case OpSubscribe(qs, tx) => RegisterAllKeeps(s, qs, tx);
    case OpSendToMailbox(q, tag, env) => SendToMailboxBytes(s, q, tag, env, now);
    case OpSendToGroupInbox(q, kind, tag, env) => SendToGroupInboxBytes(s, q, kind, tag, env, now);
    case OpAck(q, id) => AckFreesCounted(s, q, id);
    case OpClose(_) =>
    case OpRestart => assert BytesMap(Restarted(s, now).queues) == BytesMap(s.queues);
  }

  /**
   * In every run the counter equals the bytes pending and stays within the bound, and the
   * saturating subtraction of any next ack does not saturate.
   */
  lemma {:induction false} StorageConserved(steps: seq<Step>, q: QueueId, id: MessageId)
    ensures
      var s := Run(EMPTY, steps);
      StorageInv(s) && Freed(Pending(s, q), id) <= s.storage
  {
    if steps == [] {
      assert BytesMap(EMPTY.queues) == map[];
    } else {
      var init, last := steps[..|steps| - 1], steps[|steps| - 1];
      StorageConserved(init, q, id);
      StepKeepsStorage(Run(EMPTY, init), last.op, last.now);
    }
    AckFreesCounted(Run(EMPTY, steps), q, id);
  }
}
