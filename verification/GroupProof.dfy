/** Every action keeps the group's invariant, whatever the schedule. */
module GroupProof {
  import opened Base
  import opened Wire
  import opened Relay
  import opened RelayEffects
  import opened RelayHistory
  import opened RelayDb
  import opened Mail
  import opened Engine
  import opened Group
  import opened GroupInv

  ghost predicate InboxOk(g: Config, relay: State, accepted: nat) {
    && g.inbox in relay.queues && relay.queues[g.inbox].sendKey == g.key
    && relay.queues[g.inbox].kind == GroupInbox(g.epoch0 + accepted, g.roster)
  }

  ghost predicate RelayOk(g: Config, relay: State, db: Db, accepted: nat) {
    SubsDistinct(relay) && Mirrors(relay, db) && InboxOk(g, relay, accepted)
  }

  ghost predicate MemberOk(g: Config, relay: State, log: seq<Content>, m: MemberId, mb: Member) {
    && m in g.mailbox && IsMailbox(relay, g.mailbox[m])
    && MemberInv(g.epoch0, m, mb, ViewOf(g, relay, m, mb), log)
  }

  ghost predicate MembersOk(g: Config, s: Sys) {
    forall m :: m in s.members ==> MemberOk(g, s.relay, s.log, m, s.members[m])
  }

  /**
   * A returned call names the log position of its own commit, which its member has on disk, and lost
   * no more rounds than others' commits stand between its start and that position.
   */
  ghost predicate LandedOk(e0: nat, log: seq<Content>, members: map<MemberId, Member>, r: Returned) {
    && e0 < r.epoch <= e0 + |log| && log[r.epoch - 1 - e0] == r.commit
    && r.commit.Commit? && r.commit.author == r.member
    && r.member in members && r.epoch <= members[r.member].client.disk.session.epoch
    && OthersOnly(log, r.start, r.epoch - 1 - e0, r.member) && r.conflicts <= r.epoch - 1 - e0 - r.start
  }

  ghost predicate LandedInv(g: Config, s: Sys) {
    && (forall i :: 0 <= i < |s.landed| ==> LandedOk(g.epoch0, s.log, s.members, s.landed[i]))
    && (forall i, j :: 0 <= i < j < |s.landed| ==> s.landed[i].epoch != s.landed[j].epoch)
  }

  ghost predicate SysInv(g: Config, s: Sys) {
    && GoodConfig(g) && LogOk(g.epoch0, s.log)
    && RelayOk(g, s.relay, s.db, |s.log|)
    && MembersOk(g, s)
    && LandedInv(g, s)
  }

  lemma InitHolds(g: Config, s: Sys)
    requires Init(g, s)
    ensures SysInv(g, s)
  {
    hide MemberInv, Mirrors, SubsDistinct;
    forall m | m in s.members
      ensures MemberOk(g, s.relay, s.log, m, s.members[m])
    {
      FreshMemberHolds(g, m, s.members[m], ViewOf(g, s.relay, m, s.members[m]));
    }
  }

  lemma FreshMemberHolds(g: Config, m: MemberId, mb: Member, v: View)
    requires FreshMember(g, mb) && v.delivered == [] && !v.listening
    requires forall x :: x in v.pending ==>
      x.envelope.content.Foreign? && x.messageId == MessageIdFor(x.envelope.content)
    ensures MemberInv(g.epoch0, m, mb, v, [])
  {
    NoCommitsScan(g.epoch0, v.pending, 0);
    var none: seq<Stored> := [];
    assert Scan(g.epoch0, none, 0) == Some(0);
  }

  lemma {:induction false} NoCommitsScan(e0: nat, xs: seq<Stored>, n: nat)
    requires forall x :: x in xs ==> !x.envelope.content.Commit?
    ensures Scan(e0, xs, n) == Some(n)
  {
    if xs != [] {
      assert xs[|xs| - 1] in xs && forall x :: x in xs[..|xs| - 1] ==> x in xs;
      NoCommitsScan(e0, xs[..|xs| - 1], n);
    }
  }

  // ---- moves of one member ------------------------------------------------------------------

  /** Only member `m` changes, and its disk does not go back. */
  lemma OneMemberChanges(g: Config, s: Sys, m: MemberId, mb: Member)
    requires SysInv(g, s) && m in s.members
    requires MemberOk(g, s.relay, s.log, m, mb)
    requires s.members[m].client.disk.session.epoch <= mb.client.disk.session.epoch
    ensures SysInv(g, s.(members := s.members[m := mb]))
  {
    hide MemberOk, RelayOk;
    var t := s.(members := s.members[m := mb]);
    forall i | 0 <= i < |t.landed|
      ensures LandedOk(g.epoch0, t.log, t.members, t.landed[i])
    {
      assert LandedOk(g.epoch0, s.log, s.members, s.landed[i]);
    }
  }

  predicate IsQuiet(move: Move) {
    move.GetPush? || move.EndAck? || move.Surface? || move.Compose? || move.BuildCommit? || move.ReadReply?
    || move.LoseReply? || move.CrashAndResume?
  }

  /** The moves that touch neither the relay nor another member. */
  lemma QuietMoveKeepsMember(g: Config, s: Sys, m: MemberId, move: Move)
    requires SysInv(g, s) && m in s.members && m in g.mailbox && CanMove(g, s, m, move) && IsQuiet(move)
    ensures
      var t := Moved(g, s, m, move);
      m in t.members && MemberOk(g, s.relay, s.log, m, t.members[m])
  {
    hide MemberInv, RelayOk, LandedInv, IsMailbox, Pending, Delivered, Listening, FreshChan;
    hide Receive, TakeReply, BeginCommit, BeginSend, FinishAck;
    assert MemberOk(g, s.relay, s.log, m, s.members[m]);
    var e0, mb := g.epoch0, s.members[m];
    var v := ViewOf(g, s.relay, m, mb);
    match move
    case GetPush(decrypts) => GetPushKeeps(e0, m, mb, v, decrypts, s.log);
    case EndAck(dropped) => EndAckKeeps(e0, m, mb, v, dropped, s.log);
    case Surface => SurfaceKeeps(e0, m, mb, v, s.log);
    case Compose => ComposeKeeps(e0, m, mb, v, Application(m, mb.client.session.epoch, s.nonce), s.log);
    case BuildCommit => BuildCommitKeeps(e0, m, mb, v, s.nonce, s.log);
    case ReadReply => ReadReplyKeeps(e0, m, mb, v, s.log);
    case LoseReply => LoseReplyKeeps(e0, m, mb, v, s.log);
    case CrashAndResume => CrashKeeps(e0, m, mb, v, s.log);
  }

  lemma QuietMoveKeepsDisk(g: Config, s: Sys, m: MemberId, move: Move)
    requires m in s.members && m in g.mailbox && CanMove(g, s, m, move) && IsQuiet(move)
    ensures
      var t := Moved(g, s, m, move);
      m in t.members && t.members[m].client.disk == s.members[m].client.disk
  {
    hide Delivered, FreshChan;
  }

  lemma QuietMoveKeeps(g: Config, s: Sys, m: MemberId, move: Move)
    requires SysInv(g, s) && m in s.members && m in g.mailbox && CanMove(g, s, m, move) && IsQuiet(move)
    ensures SysInv(g, Moved(g, s, m, move))
  {
    hide MemberOk, RelayOk, LandedInv;
    QuietMoveKeepsMember(g, s, m, move);
    QuietMoveKeepsDisk(g, s, m, move);
    var t := Moved(g, s, m, move);
    OneMemberChanges(g, s, m, t.members[m]);
    assert t == s.(nonce := t.nonce, members := s.members[m := t.members[m]]);
    NonceIsFree(g, s.(members := t.members), t.nonce);
  }

  lemma NonceIsFree(g: Config, s: Sys, nonce: nat)
    requires SysInv(g, s)
    ensures SysInv(g, s.(nonce := nonce))
  {
    hide MemberOk, RelayOk;
  }

  lemma PersistMoveKeeps(g: Config, s: Sys, m: MemberId)
    requires SysInv(g, s) && m in s.members && s.members[m].client.phase.Unsaved?
    ensures SysInv(g, SaveAndReturn(g, s, m))
  {
    hide MemberOk, RelayOk, LandedInv, Save;
    var mb := s.members[m];
    PersistKeepsMember(g, s.relay, s.log, m, mb);
    OneMemberChanges(g, s, m, mb.(client := Save(mb.client)));
    if mb.client.phase.next.ReturnIt? {
      ReturnKeeps(g, s, m);
    }
  }

  lemma PersistKeepsMember(g: Config, relay: State, log: seq<Content>, m: MemberId, mb: Member)
    requires MemberOk(g, relay, log, m, mb) && mb.client.phase.Unsaved?
    ensures
      var mb' := mb.(client := Save(mb.client));
      MemberOk(g, relay, log, m, mb') && mb.client.disk.session.epoch <= mb'.client.disk.session.epoch
  {
    PersistKeeps(g.epoch0, m, mb, ViewOf(g, relay, m, mb), log);
    DiskBehind(g.epoch0, m, mb, ViewOf(g, relay, m, mb), log);
    hide MemberInv;
  }

  lemma DiskBehind(e0: nat, me: MemberId, mb: Member, v: View, log: seq<Content>)
    requires MemberInv(e0, me, mb, v, log) && mb.client.phase.Unsaved?
    ensures mb.client.disk.session.epoch <= Save(mb.client).disk.session.epoch
  {
    hide MailInv, EchoInv, RetryInv, SurfaceInv;
  }

  /** The commit a call is about to return for sits just below its session's epoch. */
  lemma ReturnFacts(g: Config, s: Sys, m: MemberId)
    requires m in s.members && MemberOk(g, s.relay, s.log, m, s.members[m])
    requires s.members[m].client.phase.Unsaved? && s.members[m].client.phase.next.ReturnIt?
    ensures
      var c := s.members[m].client;
      var e := c.session.epoch;
      && g.epoch0 < e <= g.epoch0 + |s.log| && s.log[e - 1 - g.epoch0] == c.phase.next.commit
      && c.phase.next.commit.Commit? && c.phase.next.commit.author == m
      && c.disk.session.epoch < e && Save(c).disk.session.epoch == e
      && OthersOnly(s.log, s.members[m].start, e - 1 - g.epoch0, m)
      && s.members[m].conflicts <= e - 1 - g.epoch0 - s.members[m].start
  {
  }

  /** A returning call lands at a position no earlier call returned. */
  lemma ReturnKeeps(g: Config, s: Sys, m: MemberId)
    requires SysInv(g, s) && m in s.members
    requires s.members[m].client.phase.Unsaved? && s.members[m].client.phase.next.ReturnIt?
    requires SysInv(g, WithClient(s, m, Save(s.members[m].client)))
    ensures SysInv(g, SaveAndReturn(g, s, m))
  {
    hide MemberOk, RelayOk, Save;
    ReturnFacts(g, s, m);
    var t, u := SaveAndReturn(g, s, m), WithClient(s, m, Save(s.members[m].client));
    var r := t.landed[|s.landed|];
    forall i | 0 <= i < |s.landed|
      ensures s.landed[i].epoch != r.epoch && LandedOk(g.epoch0, t.log, t.members, s.landed[i])
    {
      assert LandedOk(g.epoch0, s.log, s.members, s.landed[i]);
      assert LandedOk(g.epoch0, u.log, u.members, u.landed[i]);
    }
    assert LandedOk(g.epoch0, t.log, t.members, r);
  }

  // ---- requests ------------------------------------------------------------------------------

  /** The inbox changes only when a commit to it is accepted. */
  lemma InboxKept(g: Config, relay: State, op: Op, now: int, n: nat)
    requires SubsDistinct(relay) && InboxOk(g, relay, n) && !op.OpRestart?
    ensures InboxOk(g, Do(relay, op, now).0,
              if op.OpSendToGroupInbox? && op.q == g.inbox && op.kind.CommitAt? && Do(relay, op, now).1 == Accepted
              then n + 1 else n)
  {
    hide PushAndNotify, FanOut, Subscribe, WouldExceedStorage, Without, Freed;
    if Do(relay, op, now).1 != Accepted {
      RejectedFrame(relay, op, now);
    } else {
      match op
      case OpSubscribe(qs, tx) => SubscribeEffect(relay, qs, tx, 0, tx);
      case OpSendToMailbox(q, tag, env) => DepositEffect(Charge(relay, q, now).0, q, env, g.inbox, 0);
      case OpSendToGroupInbox(q, kind, tag, env) =>
        FanOutFrame(Advance(Charge(relay, q, now).0, q, kind), relay.queues[q].kind.fanOutTo, env, g.inbox, 0);
      case _ =>
    }
  }

  /** An accepted send appends copies of one message to a member's backlog and live connection. */
  lemma SendView(g: Config, relay: State, op: Op, now: int, m: MemberId, mb: Member) returns (k: nat)
    requires SubsDistinct(relay) && m in g.mailbox && IsMailbox(relay, g.mailbox[m])
    requires (op.OpSendToMailbox? || op.OpSendToGroupInbox?) && Do(relay, op, now).1 == Accepted
    ensures
      var v, x := ViewOf(g, relay, m, mb), StoredOf(op.envelope);
      ViewOf(g, Do(relay, op, now).0, m, mb) ==
      View(v.pending + Copies(x, k), v.delivered + Copies(x, if v.listening then k else 0), v.listening)
    ensures op.OpSendToGroupInbox? ==> k == Count(relay.queues[op.q].kind.fanOutTo, g.mailbox[m])
  {
    var q, x := g.mailbox[m], StoredOf(op.envelope);
    var c := if mb.chan.Some? then mb.chan.value else 0;
    if op.OpSendToMailbox? {
      MailboxSendEffect(relay, op, now, q, c);
      OneArrival(op.q, x, q);
      k := if op.q == q then 1 else 0;
      assert ArrivedAt(EventsOf(relay, op, now), q) == Copies(x, k);
    } else {
      GroupSendEffect(relay, op, now, q, c);
      FanOutArrivals(relay, relay.queues[op.q].kind.fanOutTo, x, q);
      k := Count(relay.queues[op.q].kind.fanOutTo, q);
    }
    AppendCopy(Delivered(relay, c, q), x, 0);
    AppendCopy([], x, 0);
  }

  /** Requests that make nothing arrive at a member's mailbox. */
  lemma QuietView(g: Config, relay: State, op: Op, now: int, m: MemberId, mb: Member)
    requires SubsDistinct(relay) && m in g.mailbox && IsMailbox(relay, g.mailbox[m])
    requires Do(relay, op, now).1 != Accepted ||
             (!op.OpSendToMailbox? && !op.OpSendToGroupInbox? && !op.OpRestart?)
    requires op.OpAck? ==> op.q != g.mailbox[m]
    requires op.OpSubscribe? && mb.chan == Some(op.tx) ==> g.mailbox[m] !in op.qs
    ensures
      var v, v' := ViewOf(g, relay, m, mb), ViewOf(g, Do(relay, op, now).0, m, mb);
      v'.pending == v.pending && v'.delivered == v.delivered && (v'.listening ==> v.listening)
  {
    var q := g.mailbox[m];
    if Do(relay, op, now).1 != Accepted {
      RejectedFrame(relay, op, now);
    } else if op.OpSubscribe? {
      SubscribeEffect(relay, op.qs, op.tx, q, if mb.chan.Some? then mb.chan.value else 0);
    }
  }

  /** The relay side of a request. */
  lemma HandleRelay(g: Config, s: Sys, op: Op, now: int)
    requires SysInv(g, s) && !op.OpRestart?
    ensures
      var accepted :=
        op.OpSendToGroupInbox? && op.q == g.inbox && op.kind.CommitAt? && Do(s.relay, op, now).1 == Accepted;
      RelayOk(g, Do(s.relay, op, now).0, DbDo(s.relay, s.db, op, now), if accepted then |s.log| + 1 else |s.log|)
  {
    hide MembersOk, LandedInv;
    StepMirrors(s.relay, s.db, op, now);
    StepFrame(s.relay, op, now, 0);
    InboxKept(g, s.relay, op, now, |s.log|);
  }

  /** A request that is neither an accepted commit of the group nor a member's own ack or subscription. */
  ghost predicate Ordinary(g: Config, s: Sys, op: Op, now: int) {
    && !op.OpRestart?
    && (op.OpSendToMailbox? || op.OpSendToGroupInbox? ==>
          Do(s.relay, op, now).1 != Accepted ||
          (op.envelope.messageId == MessageIdFor(op.envelope.content) && !op.envelope.content.Commit?
           && (op.OpSendToGroupInbox? && op.q == g.inbox ==> op.kind == Plain)
           && (op.envelope.content.Application? ==>
                 forall m :: m in s.members && m == op.envelope.content.author ==>
                   op.envelope.messageId in s.members[m].client.disk.seen)))
    && (op.OpAck? ==> forall m :: m in g.mailbox ==> op.q != g.mailbox[m])
    && (op.OpSubscribe? ==>
          forall m :: m in s.members && m in g.mailbox && s.members[m].chan == Some(op.tx) ==> g.mailbox[m] !in op.qs)
  }

  lemma OrdinaryRequestMember(g: Config, s: Sys, op: Op, now: int, m: MemberId)
    requires SubsDistinct(s.relay) && Ordinary(g, s, op, now)
    requires m in s.members && MemberOk(g, s.relay, s.log, m, s.members[m])
    ensures MemberOk(g, Do(s.relay, op, now).0, s.log, m, NoteArrivals(g, Do(s.relay, op, now).0, m, s.members[m]))
  {
    hide MemberInv;
    var mb, relay := s.members[m], Do(s.relay, op, now).0;
    var v := ViewOf(g, s.relay, m, mb);
    StepFrame(s.relay, op, now, g.mailbox[m]);
    if (op.OpSendToMailbox? || op.OpSendToGroupInbox?) && Do(s.relay, op, now).1 == Accepted {
      var k := SendView(g, s.relay, op, now, m, mb);
      MailKeeps(g.epoch0, m, mb, v, StoredOf(op.envelope), k, s.log);
    } else {
      QuietView(g, s.relay, op, now, m, mb);
      QuietKeeps(g.epoch0, m, mb, v, ViewOf(g, relay, m, mb), s.log);
    }
  }

  /** Requests move nothing that a returned call relies on. */
  lemma LandedSurvives(g: Config, s: Sys, t: Sys)
    requires LandedInv(g, s) && t.landed == s.landed && s.log <= t.log && t.members.Keys == s.members.Keys
    requires forall m :: m in s.members ==> t.members[m].client.disk == s.members[m].client.disk
    ensures LandedInv(g, t)
  {
    forall i | 0 <= i < |t.landed|
      ensures LandedOk(g.epoch0, t.log, t.members, t.landed[i])
    {
      assert LandedOk(g.epoch0, s.log, s.members, s.landed[i]);
    }
  }

  lemma OrdinaryRequestKeeps(g: Config, s: Sys, op: Op, now: int)
    requires SysInv(g, s) && Ordinary(g, s, op, now)
    ensures SysInv(g, Handle(g, s, op, now))
  {
    hide MemberOk, LandedInv, InboxOk, Mirrors, Do, DbDo;
    var t := Handle(g, s, op, now);
    HandleRelay(g, s, op, now);
    forall m | m in t.members
      ensures MemberOk(g, t.relay, t.log, m, t.members[m])
    {
      OrdinaryRequestMember(g, s, op, now, m);
    }
    LandedSurvives(g, s, t);
  }

  /** A member's ack takes effect at the relay. */
  lemma AckArrivesKeeps(g: Config, s: Sys, m: MemberId, id: MessageId, now: int)
    requires SysInv(g, s) && m in s.members && id in s.members[m].client.acks
    requires m in g.mailbox
    ensures SysInv(g, Handle(g, s, OpAck(g.mailbox[m], id), now))
  {
    hide MemberOk, LandedInv, InboxOk, Mirrors, Do, DbDo;
    var op := OpAck(g.mailbox[m], id);
    var t := Handle(g, s, op, now);
    HandleRelay(g, s, op, now);
    forall k | k in t.members
      ensures MemberOk(g, t.relay, t.log, k, t.members[k])
    {
      AckReachesMember(g, s, m, id, now, k);
    }
    LandedSurvives(g, s, t);
  }

  lemma AckReachesMember(g: Config, s: Sys, m: MemberId, id: MessageId, now: int, k: MemberId)
    requires GoodConfig(g) && SubsDistinct(s.relay) && m in s.members && id in s.members[m].client.acks
    requires m in g.mailbox && k in s.members && MemberOk(g, s.relay, s.log, k, s.members[k])
    ensures
      var relay := Do(s.relay, OpAck(g.mailbox[m], id), now).0;
      MemberOk(g, relay, s.log, k, NoteArrivals(g, relay, k, s.members[k]))
  {
    hide MemberInv;
    var op, mb := OpAck(g.mailbox[m], id), s.members[k];
    var relay, v := Do(s.relay, op, now).0, ViewOf(g, s.relay, k, mb);
    StepFrame(s.relay, op, now, g.mailbox[k]);
    if k == m {
      AckKeeps(g.epoch0, m, mb, v, id, s.log);
    } else {
      QuietView(g, s.relay, op, now, k, mb);
      QuietKeeps(g.epoch0, k, mb, v, ViewOf(g, relay, k, mb), s.log);
    }
  }

  /** A member connects anew. */
  lemma ConnectMoveKeeps(g: Config, s: Sys, m: MemberId, chan: Chan)
    requires SysInv(g, s) && m in s.members && m in g.mailbox && FreshChan(s.relay, chan)
    ensures SysInv(g, Reconnect(g, s, m, chan))
  {
    hide MemberOk, LandedInv, InboxOk, Mirrors, Do, DbDo, FreshChan, ForgetReply;
    var t := Reconnect(g, s, m, chan);
    HandleRelay(g, s, OpSubscribe([g.mailbox[m]], chan), 0);
    forall k | k in t.members
      ensures MemberOk(g, t.relay, t.log, k, t.members[k])
    {
      ConnectReachesMember(g, s, m, chan, k);
    }
    ForgetsNothingElse(s.members[m].client);
    LandedSurvives(g, s, t);
  }

  lemma ForgetsNothingElse(c: Client)
    ensures ForgetReply(c) == c.(call := ForgetReply(c).call)
  {
  }

  lemma ConnectReachesMember(g: Config, s: Sys, m: MemberId, chan: Chan, k: MemberId)
    requires GoodConfig(g) && SubsDistinct(s.relay) && m in s.members && m in g.mailbox && FreshChan(s.relay, chan)
    requires k in s.members && MemberOk(g, s.relay, s.log, k, s.members[k])
    ensures
      var t := Reconnect(g, s, m, chan);
      k in t.members && MemberOk(g, t.relay, s.log, k, t.members[k])
  {
    hide MemberInv, DbDo, Subscribe, ForgetReply;
    var op, mb := OpSubscribe([g.mailbox[m]], chan), s.members[k];
    var relay := Do(s.relay, op, 0).0;
    StepFrame(s.relay, op, 0, g.mailbox[k]);
    if k == m {
      ConnectView(g, s, m, chan);
      ConnectKeeps(g.epoch0, m, mb, ViewOf(g, s.relay, m, mb), chan, s.log);
    } else {
      QuietView(g, s.relay, op, 0, k, mb);
      QuietKeeps(g.epoch0, k, mb, ViewOf(g, s.relay, k, mb), ViewOf(g, relay, k, mb), s.log);
    }
  }

  lemma ConnectView(g: Config, s: Sys, m: MemberId, chan: Chan)
    requires SubsDistinct(s.relay) && m in g.mailbox && FreshChan(s.relay, chan)
    ensures
      var q := g.mailbox[m];
      var relay := Do(s.relay, OpSubscribe([q], chan), 0).0;
      && Pending(relay, q) == Pending(s.relay, q)
      && Delivered(relay, chan, q) == Pending(s.relay, q) && Listening(relay, chan, q)
  {
    var q := g.mailbox[m];
    assert [q][..0] == [];
    assert Count([q], q) == 1;
    SubscribeEffect(s.relay, [q], chan, q, chan);
    assert Delivered(s.relay, chan, q) == [];
  }

  /** A restart rebuilds the relay from its file and drops every connection. */
  lemma RestartKeeps(g: Config, s: Sys, now: int)
    requires SysInv(g, s)
    ensures SysInv(g, Act(g, s, RelayRestarts(now)))
  {
    var t := Act(g, s, RelayRestarts(now));
    hide MemberOk, LandedInv, Mirrors, OpenDb;
    OpenRestores(s.relay, s.db, now);
    assert t.relay == Restarted(s.relay, now);
    StepMirrors(s.relay, s.db, OpRestart, now);
    forall k | k in t.members
      ensures MemberOk(g, t.relay, t.log, k, t.members[k])
    {
      RestartReachesMember(g, s.relay, s.log, k, s.members[k], now);
    }
    LandedSurvives(g, s, t);
  }

  lemma RestartReachesMember(g: Config, relay: State, log: seq<Content>, k: MemberId, mb: Member, now: int)
    requires MemberOk(g, relay, log, k, mb)
    ensures MemberOk(g, Restarted(relay, now), log, k, mb)
  {
    hide MemberInv;
    QuietKeeps(g.epoch0, k, mb, ViewOf(g, relay, k, mb), ViewOf(g, Restarted(relay, now), k, mb), log);
  }

  // ---- commits -------------------------------------------------------------------------------

  /** One member's view of an accepted commit. */
  lemma CommitReachesMember(g: Config, s: Sys, w: Content, size: nat, now: int, m: MemberId)
    requires SysInv(g, s) && w.Commit? && m in s.members
    requires Do(s.relay, CommitOp(g, w, size), now).1 == Accepted
    ensures
      var relay := Do(s.relay, CommitOp(g, w, size), now).0;
      w.epoch == g.epoch0 + |s.log| && MemberOk(g, relay, s.log + [w], m, NoteArrivals(g, relay, m, s.members[m]))
  {
    hide MemberInv, LandedInv;
    hide Mirrors, PushAndNotify, FanOut, WouldExceedStorage;
    var op, mb := CommitOp(g, w, size), s.members[m];
    assert MemberOk(g, s.relay, s.log, m, mb);
    StepFrame(s.relay, op, now, g.mailbox[m]);
    var k := SendView(g, s.relay, op, now, m, mb);
    CountPositive(g.roster, g.mailbox[m]);
    CommitKeeps(g.epoch0, m, mb, ViewOf(g, s.relay, m, mb), StoredOf(Wrap(w, size)), k, s.log);
  }

  lemma AcceptedAtHead(g: Config, relay: State, w: Content, size: nat, now: int, n: nat)
    requires InboxOk(g, relay, n) && w.Commit? && Do(relay, CommitOp(g, w, size), now).1 == Accepted
    ensures w.epoch == g.epoch0 + n
  {
  }

  /** The relay accepts a commit: the log grows and every member's mail with it. */
  lemma AcceptedCommitKeeps(g: Config, s: Sys, w: Content, size: nat, now: int)
    requires SysInv(g, s) && w.Commit?
    requires Do(s.relay, CommitOp(g, w, size), now).1 == Accepted
    ensures SysInv(g, Handle(g, s, CommitOp(g, w, size), now).(log := s.log + [w]))
  {
    hide MemberOk, LandedInv, InboxOk, Mirrors, Do, DbDo;
    var op := CommitOp(g, w, size);
    var t := Handle(g, s, op, now).(log := s.log + [w]);
    HandleRelay(g, s, op, now);
    AcceptedAtHead(g, s.relay, w, size, now, |s.log|);
    forall m | m in t.members
      ensures MemberOk(g, t.relay, t.log, m, t.members[m])
    {
      CommitReachesMember(g, s, w, size, now, m);
    }
    LandedSurvives(g, s, t);
  }

  /** A rejected commit changes no one's mail; a conflict means the log has moved on. */
  lemma RejectedCommitKeeps(g: Config, s: Sys, w: Content, size: nat, now: int)
    requires SysInv(g, s) && w.Commit?
    requires Do(s.relay, CommitOp(g, w, size), now).1 != Accepted
    ensures SysInv(g, Handle(g, s, CommitOp(g, w, size), now))
    ensures Do(s.relay, CommitOp(g, w, size), now).1 == Rejected(EpochConflict) ==> w.epoch != g.epoch0 + |s.log|
  {
    OrdinaryRequestKeeps(g, s, CommitOp(g, w, size), now);
    hide MembersOk, LandedInv;
  }

  /** The reply reaches the member that waits for it. */
  lemma ReplyKeeps(g: Config, s: Sys, m: MemberId, w: Content, reply: Reply)
    requires SysInv(g, s) && m in s.members && s.members[m].client.call == Awaiting(w)
    requires reply == Accepted ==> s.log != [] && w == s.log[|s.log| - 1] && w.epoch == g.epoch0 + |s.log| - 1
    requires reply == Rejected(EpochConflict) ==> w.epoch != g.epoch0 + |s.log|
    ensures SysInv(g, WithClient(s, m, s.members[m].client.(call := Replied(w, reply))))
  {
    hide MemberInv, RelayOk, LandedInv;
    var mb := s.members[m];
    assert MemberOk(g, s.relay, s.log, m, mb);
    ReplyKeepsMember(g.epoch0, m, mb, ViewOf(g, s.relay, m, mb), w, reply, s.log);
    OneMemberChanges(g, s, m, mb.(client := mb.client.(call := Replied(w, reply))));
  }

  lemma CommitArrivesKeeps(g: Config, s: Sys, m: MemberId, w: Content, size: nat, now: int)
    requires SysInv(g, s) && m in s.members && w.Commit?
    ensures SysInv(g, DecideCommit(g, s, m, w, size, now))
  {
    hide SysInv, Do, DbDo;
    var op := CommitOp(g, w, size);
    var reply := Do(s.relay, op, now).1;
    var t := Handle(g, s, op, now);
    if reply == Accepted {
      AcceptedCommitKeeps(g, s, w, size, now);
      CommitReachesMember(g, s, w, size, now, m);
      var u := t.(log := s.log + [w]);
      if u.members[m].client.call == Awaiting(w) {
        ReplyKeeps(g, u, m, w, reply);
      }
    } else {
      RejectedCommitKeeps(g, s, w, size, now);
      if t.members[m].client.call == Awaiting(w) {
        ReplyKeeps(g, t, m, w, reply);
      }
    }
  }

  // ---- every action, every run ---------------------------------------------------------------

  lemma OutboxHoldsMessages(g: Config, s: Sys, m: MemberId, w: Content)
    requires SysInv(g, s) && m in s.members && w in s.members[m].client.outbox
    ensures w.Application? && w.author == m && MessageIdFor(w) in s.members[m].client.disk.seen
  {
    assert MemberOk(g, s.relay, s.log, m, s.members[m]);
  }

  lemma ActionKeeps(g: Config, s: Sys, a: Action)
    requires SysInv(g, s)
    ensures SysInv(g, Act(g, s, a))
  {
    hide SysInv, Do, DbDo;
    match a
    case RelayRestarts(now) => RestartKeeps(g, s, now);
    case Outside(op, now) =>
      if Permitted(g, s, op) {
        OrdinaryRequestKeeps(g, s, op, now);
      }
    case By(m, move) =>
      if m in s.members && m in g.mailbox && CanMove(g, s, m, move) {
        match move
        case Persist => PersistMoveKeeps(g, s, m);
        case Connect(chan) => ConnectMoveKeeps(g, s, m, chan);
        case AckArrives(id, now) => AckArrivesKeeps(g, s, m, id, now);
        case MessageArrives(w, size, now) =>
          OutboxHoldsMessages(g, s, m, w);
          OrdinaryRequestKeeps(g, s, MessageOp(g, w, size), now);
        case CommitArrives(w, size, now) => CommitArrivesKeeps(g, s, m, w, size, now);
        case _ => QuietMoveKeeps(g, s, m, move);
      }
  }

  /** The invariant holds after every run. */
  lemma {:induction false} RunKeeps(g: Config, s: Sys, actions: seq<Action>)
    requires Init(g, s)
    ensures SysInv(g, Exec(g, s, actions))
  {
    if actions == [] {
      InitHolds(g, s);
    } else {
      RunKeeps(g, s, actions[..|actions| - 1]);
      ActionKeeps(g, Exec(g, s, actions[..|actions| - 1]), actions[|actions| - 1]);
    }
  }
}
