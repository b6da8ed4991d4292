/** The relay's state and its atomic steps, as functions on values. */
module Relay {
  import opened Base
  import opened Wire
  import opened Limiter

  datatype Stored = Stored(messageId: MessageId, envelope: Envelope)

  datatype Push = Push(queueId: QueueId, stored: Stored)

  datatype QueueKind =
    | Mailbox(pending: seq<Stored>)
    | GroupInbox(epoch: nat, fanOutTo: seq<QueueId>)

  datatype QueueEntry = QueueEntry(sendKey: Wire.Key, kind: QueueKind, window: Window)

  /**
   * `sent` holds what has been handed to each connection's push channel, in order; a channel in
   * `closed` accepts nothing more.
   */
  datatype State = State(
    queues: map<QueueId, QueueEntry>,
    subscribers: map<QueueId, seq<Chan>>,
    storage: nat,
    closed: set<Chan>,
    sent: map<Chan, seq<Push>>)

  const EMPTY := State(map[], map[], 0, {}, map[])

  predicate IsMailbox(s: State, q: QueueId) {
    q in s.queues && s.queues[q].kind.Mailbox?
  }

  function Pending(s: State, q: QueueId): seq<Stored> {
    if IsMailbox(s, q) then s.queues[q].kind.pending else []
  }

  function Sent(s: State, c: Chan): seq<Push> {
    if c in s.sent then s.sent[c] else []
  }

  function Subs(s: State, q: QueueId): seq<Chan> {
    if q in s.subscribers then s.subscribers[q] else []
  }

  function StoredOf(env: Envelope): Stored {
    Stored(env.messageId, env)
  }

  // ---- subscribing and pushing -------------------------------------------------------------

  /** The subscribers whose connection still accepts pushes. */
  function Open(cs: seq<Chan>, closed: set<Chan>): seq<Chan> {
    if cs == [] then []
    else
      var c, rest := cs[|cs| - 1], Open(cs[..|cs| - 1], closed);
      if c in closed then rest else rest + [c]
  }

  /** Every occurrence of `c` dropped. */
  function Except(cs: seq<Chan>, c: Chan): seq<Chan> {
    if cs == [] then []
    else
      var d, rest := cs[|cs| - 1], Except(cs[..|cs| - 1], c);
      if d == c then rest else rest + [d]
  }

  function Hand(sent: map<Chan, seq<Push>>, c: Chan, ps: seq<Push>): map<Chan, seq<Push>> {
    if ps == [] then sent else sent[c := (if c in sent then sent[c] else []) + ps]
  }

  /** One push handed to every channel listed, in list order. */
  function HandAll(sent: map<Chan, seq<Push>>, cs: seq<Chan>, p: Push): map<Chan, seq<Push>> {
    if cs == [] then sent
    else Hand(HandAll(sent, cs[..|cs| - 1], p), cs[|cs| - 1], [p])
  }

  function Register(s: State, q: QueueId, tx: Chan): State {
    s.(subscribers := s.subscribers[q := Except(Open(Subs(s, q), s.closed), tx) + [tx]])
  }

  function RegisterAll(s: State, qs: seq<QueueId>, tx: Chan): State {
    if qs == [] then s
    else Register(RegisterAll(s, qs[..|qs| - 1], tx), qs[|qs| - 1], tx)
  }

  lemma {:induction false} RegisterAllKeeps(s: State, qs: seq<QueueId>, tx: Chan)
    ensures RegisterAll(s, qs, tx) == s.(subscribers := RegisterAll(s, qs, tx).subscribers)
  {
    if qs != [] {
      RegisterAllKeeps(s, qs[..|qs| - 1], tx);
    }
  }

  function Pushes(q: QueueId, xs: seq<Stored>): (ps: seq<Push>)
    ensures |ps| == |xs|
    ensures forall i :: 0 <= i < |xs| ==> ps[i] == Push(q, xs[i])
  {
    seq(|xs|, i requires 0 <= i < |xs| => Push(q, xs[i]))
  }

  /** The unacked backlogs of the listed queues, one after the other. */
  function Backlogs(s: State, qs: seq<QueueId>): seq<Push> {
    if qs == [] then []
    else Backlogs(s, qs[..|qs| - 1]) + Pushes(qs[|qs| - 1], Pending(s, qs[|qs| - 1]))
  }

  lemma {:induction false} BacklogsOfQueues(s: State, t: State, qs: seq<QueueId>)
    requires s.queues == t.queues
    ensures Backlogs(s, qs) == Backlogs(t, qs)
  {
    if qs != [] {
      BacklogsOfQueues(s, t, qs[..|qs| - 1]);
    }
  }

  lemma HandConcat(sent: map<Chan, seq<Push>>, c: Chan, ps: seq<Push>, more: seq<Push>)
    ensures Hand(Hand(sent, c, ps), c, more) == Hand(sent, c, ps + more)
  {
    var had := if c in sent then sent[c] else [];
    ConcatAssoc(had, ps, more);
    if ps == [] {
      assert ps + more == more;
    } else if more == [] {
      assert ps + more == ps;
    }
  }

  function Subscribe(s: State, qs: seq<QueueId>, tx: Chan): State {
    var s1 := RegisterAll(s, qs, tx);
    if tx in s.closed then s1 else s1.(sent := Hand(s1.sent, tx, Backlogs(s, qs)))
  }

  function PushAndNotify(s: State, q: QueueId, env: Envelope): State {
    var stored := IsMailbox(s, q);
    var open := Open(Subs(s, q), s.closed);
    State(
      if stored then
        s.queues[q := s.queues[q].(kind := Mailbox(s.queues[q].kind.pending + [StoredOf(env)]))]
      else s.queues,
      if q in s.subscribers then s.subscribers[q := open] else s.subscribers,
      if stored then s.storage + env.size else s.storage,
      s.closed,
      HandAll(s.sent, open, Push(q, StoredOf(env))))
  }

  function FanOut(s: State, roster: seq<QueueId>, env: Envelope): State {
    if roster == [] then s
    else PushAndNotify(FanOut(s, roster[..|roster| - 1], env), roster[|roster| - 1], env)
  }

  // ---- the operations -----------------------------------------------------------------------

  function SaturatingAdd(a: nat, b: nat): nat {
    if a + b > U64_MAX then U64_MAX else a + b
  }

  function SaturatingSub(a: nat, b: nat): nat {
    if a < b then 0 else a - b
  }

  predicate WouldExceedStorage(storage: nat, size: nat, targets: nat) {
    SaturatingAdd(storage, size * targets) > MAX_STORAGE_BYTES
  }

  function CreateMailbox(s: State, q: QueueId, key: Wire.Key, now: int): State {
    s.(queues := s.queues[q := QueueEntry(key, Mailbox([]), Window(0, now))])
  }

  function CreateGroupInbox(
    s: State, q: QueueId, key: Wire.Key, epoch: nat, roster: seq<QueueId>, now: int): State
  {
    s.(queues := s.queues[q := QueueEntry(key, GroupInbox(epoch, roster), Window(0, now))])
  }

  /** Counts one send against the queue's window. */
  function Charge(s: State, q: QueueId, now: int): (State, bool)
    requires q in s.queues
  {
    var (w, ok) := Bump(s.queues[q].window, now, RATE_LIMIT_PER_QUEUE_PER_MINUTE);
    (s.(queues := s.queues[q := s.queues[q].(window := w)]), ok)
  }

  function SendToMailbox(s: State, q: QueueId, tag: AuthTag, env: Envelope, now: int): (State, Reply) {
    if env.size > MAX_MESSAGE_SIZE then (s, Rejected(MessageTooLarge))
    else if !IsMailbox(s, q) then (s, Rejected(QueueNotFound))
    else if ComputeTag(s.queues[q].sendKey, q, env) != tag then (s, Rejected(Unauthorized))
    else if |Pending(s, q)| >= MAX_QUEUE_DEPTH then (s, Rejected(QueueFull))
    else
      var (s1, ok) := Charge(s, q, now);
      if !ok then (s1, Rejected(RateLimited))
      else if WouldExceedStorage(s1.storage, env.size, 1) then (s1, Rejected(StorageBoundExceeded))
      else (PushAndNotify(s1, q, env), Accepted)
  }

  /** The epoch advance of an accepted commit. */
  function Advance(s: State, q: QueueId, kind: SendKind): State
    requires q in s.queues
  {
    match s.queues[q].kind
    case GroupInbox(epoch, roster) =>
      if kind.CommitAt? then
        s.(queues := s.queues[q := s.queues[q].(kind := GroupInbox(epoch + 1, roster))])
      else s
    case Mailbox(_) => s
  }

  /** Everything a group send checks before it changes anything; a roster means it may go on. */
  function CheckGroupSend(s: State, q: QueueId, kind: SendKind, tag: AuthTag, env: Envelope)
    : Option<Code>
  {
    if env.size > MAX_MESSAGE_SIZE then Some(MessageTooLarge)
    else if q !in s.queues then Some(GroupInboxNotFound)
    else if ComputeTag(s.queues[q].sendKey, q, env) != tag then Some(Unauthorized)
    else if !s.queues[q].kind.GroupInbox? then Some(GroupInboxNotFound)
    else if kind.CommitAt? && kind.epoch != s.queues[q].kind.epoch then Some(EpochConflict)
    else if WouldExceedStorage(s.storage, env.size, |s.queues[q].kind.fanOutTo|) then
      Some(StorageBoundExceeded)
    else None
  }

  function SendToGroupInbox(
    s: State, q: QueueId, kind: SendKind, tag: AuthTag, env: Envelope, now: int): (State, Reply)
  {
    match CheckGroupSend(s, q, kind, tag, env)
    case Some(code) => (s, Rejected(code))
    case None =>
      var (s1, ok) := Charge(s, q, now);
      if !ok then (s1, Rejected(RateLimited))
      else (FanOut(Advance(s1, q, kind), s.queues[q].kind.fanOutTo, env), Accepted)
  }

  /** A backlog without the entries of one message id. */
  function Without(xs: seq<Stored>, id: MessageId): seq<Stored> {
    if xs == [] then []
    else
      var x, rest := xs[|xs| - 1], Without(xs[..|xs| - 1], id);
      if x.messageId == id then rest else rest + [x]
  }

  function Bytes(xs: seq<Stored>): nat {
    if xs == [] then 0 else Bytes(xs[..|xs| - 1]) + xs[|xs| - 1].envelope.size
  }

  /** The bytes an ack of `id` frees. */
  function Freed(xs: seq<Stored>, id: MessageId): nat {
    if xs == [] then 0
    else
      var x, rest := xs[|xs| - 1], Freed(xs[..|xs| - 1], id);
      if x.messageId == id then rest + x.envelope.size else rest
  }

  function Ack(s: State, q: QueueId, id: MessageId): State {
    if IsMailbox(s, q) then
      s.(queues := s.queues[q := s.queues[q].(kind := Mailbox(Without(Pending(s, q), id)))],
         storage := SaturatingSub(s.storage, Freed(Pending(s, q), id)))
    else s
  }

  /** What a restart leaves: durable state survives, subscribers and rate windows do not. */
  function Restarted(s: State, now: int): State {
    s.(queues := map q | q in s.queues :: s.queues[q].(window := Window(0, now)),
       subscribers := map[])
  }

  // ---- steps and runs -----------------------------------------------------------------------

  /** One request (or environment event) together with the time at which the relay handles it. */
  datatype Op =
    | OpCreateMailbox(q: QueueId, key: Wire.Key)
    | OpCreateGroupInbox(q: QueueId, key: Wire.Key, epoch: nat, roster: seq<QueueId>)
    | OpSubscribe(qs: seq<QueueId>, tx: Chan)
    | OpSendToMailbox(q: QueueId, tag: AuthTag, envelope: Envelope)
    | OpSendToGroupInbox(q: QueueId, kind: SendKind, tag: AuthTag, envelope: Envelope)
    | OpAck(q: QueueId, id: MessageId)
    | OpClose(tx: Chan)
    | OpRestart

  /** Queue ids are drawn until fresh, so a creation naming a taken id does not occur. */
  function Do(s: State, op: Op, now: int): (State, Reply) {
    match op
    case OpCreateMailbox(q, key) =>
      (if q in s.queues then s else CreateMailbox(s, q, key, now), Accepted)
    case OpCreateGroupInbox(q, key, epoch, roster) =>
      (if q in s.queues then s else CreateGroupInbox(s, q, key, epoch, roster, now), Accepted)
    case OpSubscribe(qs, tx) => (Subscribe(s, qs, tx), Accepted)
    case OpSendToMailbox(q, tag, env) => SendToMailbox(s, q, tag, env, now)
    case OpSendToGroupInbox(q, kind, tag, env) => SendToGroupInbox(s, q, kind, tag, env, now)
    case OpAck(q, id) => (Ack(s, q, id), Accepted)
    case OpClose(tx) => (s.(closed := s.closed + {tx}), Accepted)
    case OpRestart => (Restarted(s, now), Accepted)
  }

  datatype Step = Step(op: Op, now: int)

  function Run(s: State, steps: seq<Step>): State {
    if steps == [] then s
    else
      var last := steps[|steps| - 1];
      Do(Run(s, steps[..|steps| - 1]), last.op, last.now).0
  }
}
