/**
 * A group conversation: one relay, any number of members, and a network that loses connections.
 * Actions may be scheduled in any order; one that is not enabled changes nothing.
 */
module Group {
  import opened Base
  import opened Wire
  import opened Relay
  import opened RelayEffects
  import opened RelayDb
  import opened Engine

  /** The group inbox with its fixed roster, and each member's mailbox. */
  datatype Config = Config(
    inbox: QueueId, key: Wire.Key, epoch0: nat, roster: seq<QueueId>, mailbox: map<MemberId, QueueId>)

  /**
   * A member: its client, its current connection and how much of it has been read. `start` and
   * `conflicts` count over the current `commit_self_update`; `arrived` and `surfaced` record what
   * has ever reached its mailbox and what it has ever shown to its user, `lost` the messages whose
   * events went with a crash.
   */
  datatype Member = Member(
    client: Client, chan: Option<Chan>, read: nat, start: nat, conflicts: nat,
    arrived: set<MessageId>, surfaced: seq<Event>, lost: set<MessageId>)

  /** A `commit_self_update` that returned `epoch` for `commit`, with the counters of that call. */
  datatype Returned = Returned(member: MemberId, epoch: nat, commit: Content, start: nat, conflicts: nat)

  /**
   * `log` records the commits the relay has accepted, `landed` the calls that have returned;
   * `nonce` is the next unused randomness.
   */
  datatype Sys = Sys(
    relay: State, db: Db, members: map<MemberId, Member>,
    log: seq<Content>, landed: seq<Returned>, nonce: nat)

  /** What a member's engine does next, or what the network does with one of its requests. */
  datatype Move =
    | GetPush(decrypts: bool)
    | Persist
    | EndAck(dropped: bool)
    | Surface
    | Compose
    | BuildCommit
    | ReadReply
    | LoseReply
    | Connect(c: Chan)
    | CrashAndResume
    | AckArrives(id: MessageId, now: int)
    | MessageArrives(w: Content, size: nat, now: int)
    | CommitArrives(w: Content, size: nat, now: int)

  datatype Action = By(m: MemberId, move: Move) | RelayRestarts(now: int) | Outside(op: Op, now: int)

  function Wrap(w: Content, size: nat): Envelope {
    Envelope(MessageIdFor(w), w, size)
  }

  /** What the current connection has been handed and the member has not read yet. */
  function Unread(g: Config, s: Sys, m: MemberId): seq<Stored>
    requires m in s.members && m in g.mailbox
  {
    var mb := s.members[m];
    if mb.chan.None? then []
    else
      var d := Delivered(s.relay, mb.chan.value, g.mailbox[m]);
      if mb.read <= |d| then d[mb.read..] else []
  }

  function Ids(xs: seq<Stored>): set<MessageId> {
    set x | x in xs :: x.messageId
  }

  // ---- relay requests ----------------------------------------------------------------------

  /** The relay handles one request, writing through to its database. */
  function Handle(g: Config, s: Sys, op: Op, now: int): Sys {
    var relay := Do(s.relay, op, now).0;
    s.(relay := relay, db := DbDo(s.relay, s.db, op, now),
       members := map m | m in s.members :: NoteArrivals(g, relay, m, s.members[m]))
  }

  function NoteArrivals(g: Config, relay: State, m: MemberId, mb: Member): Member {
    if m in g.mailbox then mb.(arrived := mb.arrived + Ids(Pending(relay, g.mailbox[m]))) else mb
  }

  function CommitOp(g: Config, w: Content, size: nat): Op
    requires w.Commit?
  {
    OpSendToGroupInbox(g.inbox, CommitAt(w.epoch), ComputeTag(g.key, g.inbox, Wrap(w, size)), Wrap(w, size))
  }

  function MessageOp(g: Config, w: Content, size: nat): Op {
    OpSendToGroupInbox(g.inbox, Plain, ComputeTag(g.key, g.inbox, Wrap(w, size)), Wrap(w, size))
  }

  /** Never used before on this relay. */
  ghost predicate FreshChan(relay: State, c: Chan) {
    c !in relay.sent && c !in relay.closed && forall q :: q in relay.subscribers ==> c !in relay.subscribers[q]
  }

  /**
   * What other clients may do: anything that does not use the group's inbox, ack a member's mail
   * or speak on a member's connection. They may still deposit messages, directly or through
   * inboxes of their own, but only ones that are not messages of this group.
   */
  ghost predicate Permitted(g: Config, s: Sys, op: Op) {
    match op
    case OpSendToMailbox(_, _, env) => env.content.Foreign? && env.messageId == MessageIdFor(env.content)
    case OpSendToGroupInbox(q, _, _, env) =>
      q != g.inbox && env.content.Foreign? && env.messageId == MessageIdFor(env.content)
    case OpAck(q, _) => forall m :: m in g.mailbox ==> g.mailbox[m] != q
    case OpSubscribe(qs, tx) =>
      forall m :: m in s.members && m in g.mailbox && s.members[m].chan == Some(tx) ==> g.mailbox[m] !in qs
    case OpRestart => false
    case _ => true
  }

  // ---- actions -----------------------------------------------------------------------------

  ghost predicate CanMove(g: Config, s: Sys, m: MemberId, move: Move)
    requires m in s.members && m in g.mailbox
  {
    var c := s.members[m].client;
    match move
    case GetPush(_) => c.phase == Ready && (c.call.NoCall? || c.call.Draining?) && Unread(g, s, m) != []
    case Persist => c.phase.Unsaved?
    case EndAck(_) => c.phase.Acking?
    case Surface => (c.phase.Ready? || c.phase.Acking?) && c.events != []
    case Compose => c.phase == Ready && c.call.NoCall?
    case BuildCommit =>
      c.phase == Ready && c.session.pending.None? &&
      (c.call.NoCall? || (c.call.Draining? && c.session.epoch != c.call.stale))
    case ReadReply => c.phase == Ready && c.call.Replied?
    case LoseReply => c.call.Replied?
    case Connect(chan) => !c.phase.Stopped? && FreshChan(s.relay, chan)
    case CrashAndResume => true
    case AckArrives(id, _) => id in c.acks
    case MessageArrives(w, _, _) => w in c.outbox
    case CommitArrives(w, _, _) => w in c.commitsOut && w.Commit?
  }

  /** One member's client changes; nothing else does. */
  function WithClient(s: Sys, m: MemberId, c: Client): Sys
    requires m in s.members
  {
    s.(members := s.members[m := s.members[m].(client := c)])
  }

  /** A call that starts anew resets its counters; a retry keeps them. */
  function StartCommit(g: Config, s: Sys, m: MemberId): Sys
    requires m in s.members
  {
    var mb := s.members[m];
    var w := Commit(m, mb.client.session.epoch, s.nonce);
    var mb1 := if mb.client.call.NoCall?
      then mb.(start := |mb.client.session.commits|, conflicts := 0) else mb;
    s.(members := s.members[m := mb1.(client := BeginCommit(mb.client, w))], nonce := s.nonce + 1)
  }

  /** The reply; a conflict is counted. */
  function FinishRound(s: Sys, m: MemberId): Sys
    requires m in s.members
  {
    var mb := s.members[m];
    var lost := mb.client.call.Replied? && mb.client.call.reply == Rejected(EpochConflict);
    s.(members := s.members[m := mb.(client := TakeReply(mb.client),
                                     conflicts := if lost then mb.conflicts + 1 else mb.conflicts)])
  }

  /** The persist; a call whose merged commit is now on disk returns. */
  function SaveAndReturn(g: Config, s: Sys, m: MemberId): Sys
    requires m in s.members
  {
    var mb := s.members[m];
    var c := mb.client;
    var t := WithClient(s, m, Save(c));
    if c.phase.Unsaved? && c.phase.next.ReturnIt?
    then t.(landed := s.landed + [Returned(m, c.session.epoch, c.phase.next.commit, mb.start, mb.conflicts)])
    else t
  }

  /** A new connection subscribes; an unanswered commit will be resent on it. */
  function Reconnect(g: Config, s: Sys, m: MemberId, chan: Chan): Sys
    requires m in s.members && m in g.mailbox
  {
    var t := Handle(g, s, OpSubscribe([g.mailbox[m]], chan), 0);
    var mb := t.members[m];
    t.(members := t.members[m := mb.(chan := Some(chan), read := 0, client := ForgetReply(mb.client))])
  }

  /**
   * The relay decides on a commit; the reply reaches its sender only if it still waits for it, and
   * one that belongs to a connection already replaced may be lost again.
   */
  function DecideCommit(g: Config, s: Sys, m: MemberId, w: Content, size: nat, now: int): Sys
    requires m in s.members && w.Commit?
  {
    var op := CommitOp(g, w, size);
    var reply := Do(s.relay, op, now).1;
    var t := Handle(g, s, op, now);
    var c := t.members[m].client;
    var u := if c.call == Awaiting(w) then WithClient(t, m, c.(call := Replied(w, reply))) else t;
    if reply == Accepted then u.(log := s.log + [w]) else u
  }

  /** The messages on disk whose events are only in memory: a crash now would leave them unshown. */
  function Forgotten(c: Client): set<MessageId> {
    set e | e in c.events && e.id in c.disk.session.applied :: e.id
  }

  ghost function Moved(g: Config, s: Sys, m: MemberId, move: Move): Sys
    requires m in s.members && m in g.mailbox && CanMove(g, s, m, move)
  {
    var mb := s.members[m];
    var c := mb.client;
    match move
    case GetPush(decrypts) =>
      s.(members := s.members[m := mb.(read := mb.read + 1, client := Receive(m, c, Unread(g, s, m)[0], decrypts))])
    case Persist => SaveAndReturn(g, s, m)
    case EndAck(dropped) => WithClient(s, m, FinishAck(c, dropped))
    case Surface =>
      s.(members := s.members[m := mb.(surfaced := mb.surfaced + [c.events[0]],
                                       client := c.(events := c.events[1..]))])
    case Compose =>
      WithClient(s, m, BeginSend(c, Application(m, c.session.epoch, s.nonce))).(nonce := s.nonce + 1)
    case BuildCommit => StartCommit(g, s, m)
    case ReadReply => FinishRound(s, m)
    case LoseReply => WithClient(s, m, ForgetReply(c))
    case Connect(chan) => Reconnect(g, s, m, chan)
    case CrashAndResume =>
      s.(members := s.members[m := mb.(client := Resume(c), chan := None, read := 0, lost := mb.lost + Forgotten(c))])
    case AckArrives(id, now) => Handle(g, s, OpAck(g.mailbox[m], id), now)
    case MessageArrives(w, size, now) => Handle(g, s, MessageOp(g, w, size), now)
    case CommitArrives(w, size, now) => DecideCommit(g, s, m, w, size, now)
  }

  ghost function Act(g: Config, s: Sys, a: Action): Sys {
    match a
    case By(m, move) =>
      if m in s.members && m in g.mailbox && CanMove(g, s, m, move) then Moved(g, s, m, move) else s
    case RelayRestarts(now) => s.(relay := OpenDb(s.db, now).(closed := s.relay.closed, sent := s.relay.sent))
    case Outside(op, now) => if Permitted(g, s, op) then Handle(g, s, op, now) else s
  }

  ghost function Exec(g: Config, s: Sys, actions: seq<Action>): Sys {
    if actions == [] then s
    else Act(g, Exec(g, s, actions[..|actions| - 1]), actions[|actions| - 1])
  }

  // ---- where a run starts ------------------------------------------------------------------

  ghost predicate GoodConfig(g: Config) {
    && (forall a, b :: a in g.mailbox && b in g.mailbox && a != b ==> g.mailbox[a] != g.mailbox[b])
    && (forall m :: m in g.mailbox ==> g.mailbox[m] in g.roster)
  }

  /** A freshly paired member: at the initial epoch, with nothing of the group seen yet. */
  ghost predicate FreshMember(g: Config, mb: Member) {
    var c := mb.client;
    && c.session == Session(g.epoch0, None, [], []) && c.disk.session == c.session
    && c.seen == c.disk.seen && (forall id :: id in c.seen ==> id.content.Foreign?)
    && c.events == [] && c.phase == Ready && c.call == NoCall && c.acks == {} && c.outbox == {} && c.commitsOut == {}
    && mb.chan == None && mb.read == 0 && mb.start == 0 && mb.conflicts == 0
    && mb.arrived == {} && mb.surfaced == [] && mb.lost == {}
  }

  ghost predicate Init(g: Config, s: Sys) {
    && GoodConfig(g)
    && SubsDistinct(s.relay) && Mirrors(s.relay, s.db)
    && g.inbox in s.relay.queues && s.relay.queues[g.inbox].sendKey == g.key
    && s.relay.queues[g.inbox].kind == GroupInbox(g.epoch0, g.roster)
    && s.log == [] && s.landed == []
    && (forall m :: m in s.members ==>
          m in g.mailbox && IsMailbox(s.relay, g.mailbox[m]) && FreshMember(g, s.members[m]) &&
          forall x :: x in Pending(s.relay, g.mailbox[m]) ==>
            x.envelope.content.Foreign? && x.messageId == x.envelope.messageId == MessageIdFor(x.envelope.content))
  }
}
