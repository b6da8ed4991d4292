/** Which sends the relay accepts, and that nothing reaches a mailbox but through them. */
module RelayAdmission {
  import opened Base
  import opened Wire
  import opened Limiter
  import opened Relay
  import opened RelayEffects
  import opened RelayHistory

  /** Fewer than sixty sends since the queue's window opened, or the window is a minute old. */
  predicate WindowHasRoom(w: Window, now: int) {
    now - w.started >= 60_000_000_000 || w.count < 60
  }

  predicate Fits(s: State, bytes: nat) {
    s.storage + bytes <= 10_737_418_240
  }

  /** What a sender must have and know for a direct send, all but rate and storage. */
  predicate MailboxAdmits(s: State, q: QueueId, tag: AuthTag, env: Envelope) {
    && env.size <= 65536
    && q in s.queues && s.queues[q].kind.Mailbox?
    && tag == Tag(s.queues[q].sendKey, q, env)
    && |s.queues[q].kind.pending| < 1000
  }

  /**
   * A direct send is accepted exactly if it is small enough, the mailbox exists and is not full, the
   * tag is that of the mailbox's key over this queue and envelope, the window has room, and so has the
   * storage; each refusal has its own condition, the first that fails.
   */
  lemma MailboxSendAnswer(s: State, q: QueueId, tag: AuthTag, env: Envelope, now: int)
    ensures
      var reply := Do(s, OpSendToMailbox(q, tag, env), now).1;
      var there := q in s.queues && s.queues[q].kind.Mailbox?;
      var small := env.size <= 65536;
      && (reply == Accepted <==>
            MailboxAdmits(s, q, tag, env) && WindowHasRoom(s.queues[q].window, now) && Fits(s, env.size))
      && (reply == Rejected(MessageTooLarge) <==> !small)
      && (reply == Rejected(QueueNotFound) <==> small && !there)
      && (reply == Rejected(Unauthorized) <==> small && there && tag != Tag(s.queues[q].sendKey, q, env))
      && (reply == Rejected(QueueFull) <==>
            small && there && tag == Tag(s.queues[q].sendKey, q, env) && |s.queues[q].kind.pending| >= 1000)
      && (reply == Rejected(RateLimited) <==>
            MailboxAdmits(s, q, tag, env) && !WindowHasRoom(s.queues[q].window, now))
      && (reply == Rejected(StorageBoundExceeded) <==>
            MailboxAdmits(s, q, tag, env) && WindowHasRoom(s.queues[q].window, now) && !Fits(s, env.size))
  {
    hide PushAndNotify;
  }

  /** What a sender must have and know for a group send; only a commit is held to the epoch. */
  predicate GroupAdmits(s: State, q: QueueId, kind: SendKind, tag: AuthTag, env: Envelope) {
    && env.size <= 65536
    && q in s.queues && tag == Tag(s.queues[q].sendKey, q, env)
    && s.queues[q].kind.GroupInbox?
    && (kind.CommitAt? ==> kind.epoch == s.queues[q].kind.epoch)
  }

  /**
   * A group send is accepted exactly if it is small enough, the tag is that of the inbox's key over this
   * queue and envelope, a commit names the inbox's epoch, the whole fan-out fits the storage and the
   * window has room. A plain message is under no epoch condition.
   */
  lemma GroupSendAnswer(s: State, q: QueueId, kind: SendKind, tag: AuthTag, env: Envelope, now: int)
    ensures
      var reply := Do(s, OpSendToGroupInbox(q, kind, tag, env), now).1;
      var small := env.size <= 65536;
      && (reply == Accepted <==>
            && GroupAdmits(s, q, kind, tag, env) && Fits(s, env.size * |s.queues[q].kind.fanOutTo|)
            && WindowHasRoom(s.queues[q].window, now))
      && (reply == Rejected(MessageTooLarge) <==> !small)
      && (reply == Rejected(Unauthorized) <==>
            small && q in s.queues && tag != Tag(s.queues[q].sendKey, q, env))
      && (reply == Rejected(GroupInboxNotFound) <==>
            && small
            && (q !in s.queues || (tag == Tag(s.queues[q].sendKey, q, env) && s.queues[q].kind.Mailbox?)))
      && (reply == Rejected(EpochConflict) <==>
            && small && q in s.queues && tag == Tag(s.queues[q].sendKey, q, env) && s.queues[q].kind.GroupInbox?
            && kind.CommitAt? && kind.epoch != s.queues[q].kind.epoch)
      && (reply == Rejected(StorageBoundExceeded) <==>
            GroupAdmits(s, q, kind, tag, env) && !Fits(s, env.size * |s.queues[q].kind.fanOutTo|))
      && (reply == Rejected(RateLimited) <==>
            && GroupAdmits(s, q, kind, tag, env) && Fits(s, env.size * |s.queues[q].kind.fanOutTo|)
            && !WindowHasRoom(s.queues[q].window, now))
  {
    hide FanOut, Advance;
  }

  /** Only a rate or storage refusal leaves a trace, and that in the queue's window alone. */
  lemma RefusalsChangeNothing(s: State, op: Op, now: int)
    requires op.OpSendToMailbox? || op.OpSendToGroupInbox?
    ensures
      var (t, reply) := Do(s, op, now);
      && (reply.Rejected? && reply.code != RateLimited && reply.code != StorageBoundExceeded ==> t == s)
      && (reply.Rejected? ==>
            && t == s.(queues := t.queues) && t.queues.Keys == s.queues.Keys
            && forall r :: r in s.queues ==>
                 && t.queues[r] == s.queues[r].(window := t.queues[r].window)
                 && (r != op.q ==> t.queues[r] == s.queues[r]))
  {
    hide PushAndNotify, FanOut, Advance, WouldExceedStorage;
  }

  // ---- whole runs ----------------------------------------------------------------------------

  predicate Creates(op: Op, q: QueueId) {
    (op.OpCreateMailbox? || op.OpCreateGroupInbox?) && op.q == q
  }

  /** The operation that made the queue: the first creation to name it. */
  function CreationOf(steps: seq<Step>, q: QueueId): Option<Op> {
    if steps == [] then None
    else
      var before := CreationOf(steps[..|steps| - 1], q);
      if before.Some? then before
      else if Creates(steps[|steps| - 1].op, q) then Some(steps[|steps| - 1].op) else None
  }

  /** How many commits the inbox has accepted. */
  function CommitsTaken(steps: seq<Step>, q: QueueId): nat {
    if steps == [] then 0
    else
      var init, last := steps[..|steps| - 1], steps[|steps| - 1];
      CommitsTaken(init, q) +
      if last.op.OpSendToGroupInbox? && last.op.q == q && last.op.kind.CommitAt?
         && Do(Run(EMPTY, init), last.op, last.now).1 == Accepted then 1 else 0
  }

  /** The queue is as it was created, but for its backlog, its window and the commits it has taken. */
  ghost predicate AsCreated(e: QueueEntry, op: Op, commits: nat) {
    match op
    case OpCreateMailbox(_, key) => e.sendKey == key && e.kind.Mailbox?
    case OpCreateGroupInbox(_, key, epoch, roster) => e.sendKey == key && e.kind == GroupInbox(epoch + commits, roster)
    case _ => false
  }

  /** What one step does to the standing of one queue. */
  lemma StepKeepsCreation(s: State, op: Op, now: int, q: QueueId, made: Op, n: nat)
    requires SubsDistinct(s) && q in s.queues && AsCreated(s.queues[q], made, n)
    ensures
      var (t, reply) := Do(s, op, now);
      var taken := op.OpSendToGroupInbox? && op.q == q && op.kind.CommitAt? && reply == Accepted;
      q in t.queues && AsCreated(t.queues[q], made, if taken then n + 1 else n)
  {
    hide PushAndNotify, FanOut, Subscribe, WouldExceedStorage, Without, Freed;
    if Do(s, op, now).1 != Accepted {
      RejectedFrame(s, op, now);
    } else {
      match op
      case OpSubscribe(qs, tx) => SubscribeEffect(s, qs, tx, q, tx);
      case OpSendToMailbox(r, _, env) => DepositKeepsStanding(Charge(s, r, now).0, r, env, q);
      case OpSendToGroupInbox(r, kind, _, env) =>
        FanOutKeepsStanding(Advance(Charge(s, r, now).0, r, kind), s.queues[r].kind.fanOutTo, env, q);
      case _ =>
    }
  }

  lemma DepositKeepsStanding(s: State, r: QueueId, env: Envelope, q: QueueId)
    requires q in s.queues
    ensures
      var t := PushAndNotify(s, r, env);
      && q in t.queues && t.queues[q].sendKey == s.queues[q].sendKey
      && (s.queues[q].kind.Mailbox? ==> t.queues[q].kind.Mailbox?)
      && (s.queues[q].kind.GroupInbox? ==> t.queues[q].kind == s.queues[q].kind)
  {
  }

  lemma {:induction false} FanOutKeepsStanding(s: State, roster: seq<QueueId>, env: Envelope, q: QueueId)
    requires q in s.queues
    ensures
      var t := FanOut(s, roster, env);
      && q in t.queues && t.queues[q].sendKey == s.queues[q].sendKey
      && (s.queues[q].kind.Mailbox? ==> t.queues[q].kind.Mailbox?)
      && (s.queues[q].kind.GroupInbox? ==> t.queues[q].kind == s.queues[q].kind)
  {
    hide PushAndNotify;
    if roster != [] {
      FanOutKeepsStanding(s, roster[..|roster| - 1], env, q);
      DepositKeepsStanding(FanOut(s, roster[..|roster| - 1], env), roster[|roster| - 1], env, q);
    }
  }

  lemma StepCreates(s: State, op: Op, now: int, q: QueueId)
    requires SubsDistinct(s) && q !in s.queues
    ensures
      var t := Do(s, op, now).0;
      (q in t.queues <==> Creates(op, q)) && (q in t.queues ==> AsCreated(t.queues[q], op, 0))
  {
    hide PushAndNotify, FanOut, Subscribe, WouldExceedStorage, Without, Freed;
    if Do(s, op, now).1 != Accepted {
      RejectedFrame(s, op, now);
    } else {
      match op
      case OpSubscribe(qs, tx) => SubscribeEffect(s, qs, tx, q, tx);
      case OpSendToMailbox(r, _, env) => DepositEffect(Charge(s, r, now).0, r, env, q, 0);
      case OpSendToGroupInbox(r, kind, _, env) =>
        FanOutFrame(Advance(Charge(s, r, now).0, r, kind), s.queues[r].kind.fanOutTo, env, q, 0);
      case _ =>
    }
  }

  /**
   * In every run a queue exists exactly if it was created, has the key and kind it was first created
   * with, and a group inbox has its first roster and stands at its first epoch plus the commits taken.
   */
  lemma {:induction false} QueuesAreAsCreated(steps: seq<Step>, q: QueueId)
    ensures
      var s, made := Run(EMPTY, steps), CreationOf(steps, q);
      && SubsDistinct(s)
      && (q in s.queues <==> made.Some?)
      && (q in s.queues ==> AsCreated(s.queues[q], made.value, CommitsTaken(steps, q)))
      && (q !in s.queues ==> CommitsTaken(steps, q) == 0)
  {
    hide Do, AsCreated;
    if steps != [] {
      var init, last := steps[..|steps| - 1], steps[|steps| - 1];
      QueuesAreAsCreated(init, q);
      var s := Run(EMPTY, init);
      StepFrame(s, last.op, last.now, q);
      if q in s.queues {
        StepKeepsCreation(s, last.op, last.now, q, CreationOf(init, q).value, CommitsTaken(init, q));
      } else {
        StepCreates(s, last.op, last.now, q);
        NoSendToNowhere(s, last.op, last.now, q);
      }
    }
  }

  lemma NoSendToNowhere(s: State, op: Op, now: int, q: QueueId)
    requires q !in s.queues
    ensures op.OpSendToGroupInbox? && op.q == q ==> Do(s, op, now).1 != Accepted
  {
  }

  /**
   * The send at step `i` carries the tag of the key its queue was created with, over that queue and its
   * envelope, and `e` is its message arriving at that mailbox, or at one on the inbox's first roster.
   */
  ghost predicate SentAuthentically(steps: seq<Step>, i: nat, e: Event)
    requires i < |steps|
  {
    match steps[i].op
    case OpSendToMailbox(q, tag, env) =>
      var made := CreationOf(steps[..i], q);
      && made.Some? && made.value.OpCreateMailbox? && tag == Tag(made.value.key, q, env)
      && e == Arrived(q, Stored(env.messageId, env))
    case OpSendToGroupInbox(q, kind, tag, env) =>
      var made := CreationOf(steps[..i], q);
      && made.Some? && made.value.OpCreateGroupInbox? && tag == Tag(made.value.key, q, env)
      && (kind.CommitAt? ==> kind.epoch == made.value.epoch + CommitsTaken(steps[..i], q))
      && e.Arrived? && e.q in made.value.roster && e.stored == Stored(env.messageId, env)
    case _ => false
  }

  /** Nothing arrives unauthenticated, in any run. */
  lemma ArrivalsAreAuthentic(steps: seq<Step>, i: nat, e: Event)
    requires i < |steps| && e.Arrived?
    requires e in EventsOf(Run(EMPTY, steps[..i]), steps[i].op, steps[i].now)
    ensures SentAuthentically(steps, i, e)
  {
    var s, op, now := Run(EMPTY, steps[..i]), steps[i].op, steps[i].now;
    assert op.OpSendToMailbox? || op.OpSendToGroupInbox?;
    QueuesAreAsCreated(steps[..i], op.q);
    if op.OpSendToMailbox? {
      MailboxSendAnswer(s, op.q, op.tag, op.envelope, now);
    } else {
      GroupSendAnswer(s, op.q, op.kind, op.tag, op.envelope, now);
      FanOutEventsNamed(s, s.queues[op.q].kind.fanOutTo, StoredOf(op.envelope), e);
    }
    hide Do, Run, CreationOf, CommitsTaken;
  }

  lemma {:induction false} FanOutEventsNamed(s: State, roster: seq<QueueId>, x: Stored, e: Event)
    requires e in FanOutEvents(s, roster, x)
    ensures e.Arrived? && e.q in roster && e.stored == x
  {
    if roster != [] {
      assert roster == roster[..|roster| - 1] + [roster[|roster| - 1]];
      if e in FanOutEvents(s, roster[..|roster| - 1], x) {
        FanOutEventsNamed(s, roster[..|roster| - 1], x, e);
      }
    }
  }
}
