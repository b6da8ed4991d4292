/** The inductive invariant of the group, stated member by member, and the moves that keep it. */
module GroupInv {
  import opened Base
  import opened Wire
  import opened Relay
  import opened RelayEffects
  import opened Mail
  import opened Engine
  import opened Group
  import opened Surfacing

  /** What a member can observe of the relay: its backlog, its connection, and whether that is live. */
  datatype View = View(pending: seq<Stored>, delivered: seq<Stored>, listening: bool)

  function ViewOf(g: Config, relay: State, m: MemberId, mb: Member): View
    requires m in g.mailbox
  {
    var q := g.mailbox[m];
    if mb.chan.None? then View(Pending(relay, q), [], false)
    else View(Pending(relay, q), Delivered(relay, mb.chan.value, q), Listening(relay, mb.chan.value, q))
  }

  /** A commit in circulation is the one the relay accepted for its epoch. */
  predicate InLog(e0: nat, log: seq<Content>, c: Content) {
    c.Commit? ==> e0 <= c.epoch < e0 + |log| && log[c.epoch - e0] == c
  }

  predicate Honest(e0: nat, log: seq<Content>, x: Stored) {
    x.messageId == MessageIdFor(x.envelope.content) && InLog(e0, log, x.envelope.content)
  }

  ghost predicate AllHonest(e0: nat, log: seq<Content>, xs: seq<Stored>) {
    forall x :: x in xs ==> Honest(e0, log, x)
  }

  ghost predicate LogOk(e0: nat, log: seq<Content>) {
    forall i :: 0 <= i < |log| ==> log[i].Commit? && log[i].epoch == e0 + i
  }

  /** The merged commits are a prefix of the relay's log, and no id was applied twice. */
  ghost predicate SessionOk(e0: nat, s: Session, log: seq<Content>) {
    && |s.commits| <= |log| && s.commits == log[..|s.commits|]
    && s.epoch == e0 + |s.commits|
    && Distinct(s.applied)
  }

  /** Everything applied or merged has been seen; every commit seen was accepted. */
  ghost predicate SeenOk(e0: nat, seen: set<MessageId>, s: Session, log: seq<Content>) {
    && (forall i :: 0 <= i < |s.commits| ==> MessageIdFor(s.commits[i]) in seen)
    && (forall id :: id in seen ==> InLog(e0, log, id.content))
    && (forall id :: id in s.applied ==> id in seen)
  }

  /** No accepted commit from position `n` on has been seen. */
  ghost predicate Unmet(seen: set<MessageId>, n: nat, log: seq<Content>) {
    forall i :: n <= i < |log| ==> MessageIdFor(log[i]) !in seen
  }

  /** How memory stands to the disk in each phase. */
  ghost predicate PhaseOk(me: MemberId, c: Client) {
    match c.phase
    case Ready =>
      && c.seen == c.disk.seen
      && c.session.commits == c.disk.session.commits && c.session.applied == c.disk.session.applied
    case Acking(id) =>
      && c.seen == c.disk.seen && id in c.seen
      && c.session.commits == c.disk.session.commits && c.session.applied == c.disk.session.applied
    case Unsaved(id, next) =>
      && c.seen == c.disk.seen + {id}
      && c.disk.session.commits <= c.session.commits && c.disk.session.applied <= c.session.applied
      && (next.SendIt? || id in c.session.applied)
      && (next.SendIt? ==>
            && c.call.NoCall? && next.content.Application? && next.content.author == me
            && id == MessageIdFor(next.content))
      && (next.ReturnIt? ==>
            && c.call.NoCall? && c.session.commits != []
            && next.commit == c.session.commits[|c.session.commits| - 1]
            && next.commit.Commit? && next.commit.author == me
            && |c.disk.session.commits| < |c.session.commits|)
    case Stopped =>
      && c.disk.seen <= c.seen
      && c.session.commits == c.disk.session.commits && c.session.applied == c.disk.session.applied
  }

  predicate InFlight(c: Client, w: Content) {
    c.session.pending == Some(w) && w in c.commitsOut
  }

  ghost predicate CallOk(e0: nat, me: MemberId, c: Client, log: seq<Content>) {
    var n := |c.session.commits|;
    match c.call
    case NoCall => true
    case Awaiting(w) =>
      c.phase == Ready && w.Commit? && w.author == me && w.epoch == e0 + n && InFlight(c, w)
    case Replied(w, reply) =>
      && c.phase == Ready && w.Commit? && w.author == me && w.epoch == e0 + n && InFlight(c, w)
      && (reply == Accepted ==> n < |log| && log[n] == w)
      && (reply == Rejected(EpochConflict) ==> n < |log|)
    case Draining(stale) =>
      c.session.pending.None? && stale <= c.session.epoch && (stale == c.session.epoch ==> n < |log|)
  }

  /** A message on the disk's record is foreign, the member's own, or applied to the disk's session. */
  ghost predicate DiskMet(me: MemberId, d: Disk) {
    forall id :: id in d.seen ==>
      id.content.Foreign? || OwnMessage(id.content, me) || id in d.session.applied
  }

  ghost predicate ClientInv(e0: nat, me: MemberId, c: Client, log: seq<Content>) {
    && SessionOk(e0, c.session, log) && SessionOk(e0, c.disk.session, log)
    && SeenOk(e0, c.seen, c.session, log) && SeenOk(e0, c.disk.seen, c.disk.session, log)
    && Unmet(c.disk.seen, |c.disk.session.commits|, log)
    && (!c.phase.Stopped? ==> Unmet(c.seen, |c.session.commits|, log))
    && PhaseOk(me, c) && CallOk(e0, me, c, log) && DiskMet(me, c.disk)
    && c.acks <= c.disk.seen
    && (forall w :: w in c.outbox ==> w.Application? && w.author == me && MessageIdFor(w) in c.disk.seen)
    && (forall w :: w in c.commitsOut ==> w.Commit? && w.author == me)
  }

  /** Unread mail takes a session of `n` commits no further than the head, and a live connection just there. */
  ghost predicate Leads(e0: nat, unread: seq<Stored>, n: nat, head: nat, listening: bool) {
    && Scan(e0, unread, n).Some? && Scan(e0, unread, n).value <= head
    && (listening ==> Scan(e0, unread, n) == Some(head))
  }

  /** Whatever arrived is still in the mail or has been seen. */
  ghost predicate Recorded(arrived: set<MessageId>, pending: seq<Stored>, seen: set<MessageId>) {
    forall id :: id in arrived ==> id in Ids(pending) || id in seen
  }

  /** The backlog still leads the disk's session to the head of the log; so does a live connection. */
  ghost predicate MailInv(e0: nat, mb: Member, v: View, log: seq<Content>) {
    && AllHonest(e0, log, v.pending) && AllHonest(e0, log, v.delivered)
    && Scan(e0, v.pending, |mb.client.disk.session.commits|) == Some(|log|)
    && mb.read <= |v.delivered|
    && (mb.chan.Some? && !mb.client.phase.Stopped? ==>
          Leads(e0, v.delivered[mb.read..], |mb.client.session.commits|, |log|, v.listening))
    && Recorded(mb.arrived, v.pending, mb.client.disk.seen)
  }

  /** The member's own messages in its mail are ones its disk has seen. */
  ghost predicate EchoInv(me: MemberId, mb: Member, v: View) {
    forall x :: (x in v.pending || x in v.delivered) && OwnMessage(x.envelope.content, me) ==>
      x.messageId in mb.client.disk.seen
  }

  predicate OwnMessage(c: Content, m: MemberId) {
    c.Application? && c.author == m
  }

  /** The log from `lo` up to `hi` is other members' work. */
  ghost predicate OthersOnly(log: seq<Content>, lo: nat, hi: nat, me: MemberId) {
    lo <= hi <= |log| && forall i :: lo <= i < hi ==> log[i].Commit? && log[i].author != me
  }

  /**
   * Each counted conflict but the one being drained was answered by merging another member's
   * commit; a call about to return has its own commit on top of those.
   */
  ghost predicate RetryInv(me: MemberId, mb: Member, log: seq<Content>) {
    var c := mb.client;
    var n := |c.session.commits|;
    && (c.call != NoCall ==>
          && OthersOnly(log, mb.start, n, me)
          && mb.conflicts <= n - mb.start + (if c.call.Draining? && c.call.stale == c.session.epoch then 1 else 0))
    && (c.phase.Unsaved? && c.phase.next.ReturnIt? ==>
          n > 0 && OthersOnly(log, mb.start, n - 1, me) && mb.conflicts <= n - 1 - mb.start)
  }

  /**
   * What was shown, then what is queued, are the events of the applied messages, but for the lost ones;
   * what was shown or lost is on disk.
   */
  ghost predicate SurfaceInv(me: MemberId, mb: Member) {
    var c := mb.client;
    && mb.surfaced + c.events == Shown(c.session.applied, me, mb.lost)
    && (forall id :: id in mb.lost ==> id in c.disk.session.applied)
    && OnDisk(c.disk, mb.surfaced)
    && (!c.phase.Unsaved? ==> OnDisk(c.disk, c.events))
  }

  ghost predicate OnDisk(d: Disk, es: seq<Event>) {
    forall e :: e in es ==> e.id in d.session.applied
  }

  ghost predicate MemberInv(e0: nat, me: MemberId, mb: Member, v: View, log: seq<Content>) {
    && ClientInv(e0, me, mb.client, log)
    && MailInv(e0, mb, v, log)
    && EchoInv(me, mb, v)
    && RetryInv(me, mb, log)
    && SurfaceInv(me, mb)
  }

  // ---- moves of the engine -----------------------------------------------------------------

  lemma DistinctSnoc<T(!new)>(s: seq<T>, x: T)
    requires Distinct(s) && x !in s
    ensures Distinct(s + [x])
  {
  }

  /** Merging the next commit of the log, received or one's own, keeps the session on the log. */
  lemma MergeKeeps(e0: nat, seen: set<MessageId>, s: Session, w: Content, log: seq<Content>)
    requires LogOk(e0, log) && SessionOk(e0, s, log) && SeenOk(e0, seen, s, log)
    requires |s.commits| < |log| && log[|s.commits|] == w && Unmet(seen, |s.commits|, log)
    ensures
      var t, seen' := Merge(s, w), seen + {MessageIdFor(w)};
      SessionOk(e0, t, log) && SeenOk(e0, seen', t, log) && Unmet(seen', |t.commits|, log)
  {
    var n := |s.commits|;
    assert log[..n + 1] == log[..n] + [w];
    DistinctSnoc(s.applied, MessageIdFor(w));
    assert forall i :: n < i < |log| ==> log[i].epoch != w.epoch;
  }

  lemma ReceiveKeepsClient(e0: nat, me: MemberId, c: Client, x: Stored, decrypts: bool, log: seq<Content>)
    requires LogOk(e0, log) && ClientInv(e0, me, c, log)
    requires c.phase == Ready && (c.call.NoCall? || c.call.Draining?) && Honest(e0, log, x)
    ensures ClientInv(e0, me, Receive(me, c, x, decrypts), log)
  {
    var id, w := x.messageId, x.envelope.content;
    if id !in c.seen {
      match ProcessIncoming(me, c.session, w, decrypts)
      case CommitApplied(s) => MergeKeeps(e0, c.seen, c.session, w, log);
      case ApplicationMessage(s) => DistinctSnoc(c.session.applied, id);
      case Failed =>
    }
  }

  lemma SaveKeepsClient(e0: nat, me: MemberId, c: Client, log: seq<Content>)
    requires ClientInv(e0, me, c, log)
    ensures ClientInv(e0, me, Save(c), log)
  {
  }

  lemma TakeReplyKeepsClient(e0: nat, me: MemberId, c: Client, log: seq<Content>)
    requires LogOk(e0, log) && ClientInv(e0, me, c, log) && c.call.Replied?
    ensures ClientInv(e0, me, TakeReply(c), log)
  {
    if c.call.reply == Accepted {
      MergeKeeps(e0, c.seen, c.session, c.call.commit, log);
    }
  }

  // ---- moves of one member, everything else at rest ----------------------------------------

  /** A message already seen is one the session has passed. */
  lemma SeenIsPassed(e0: nat, seen: set<MessageId>, n: nat, x: Stored, log: seq<Content>)
    requires Honest(e0, log, x) && Unmet(seen, n, log) && x.messageId in seen
    ensures Position(e0, x).Some? ==> Position(e0, x).value < n
  {
  }

  /** Reading one push keeps the rest of the connection in step with the session. */
  lemma ReceiveKeepsPlace(
    e0: nat, me: MemberId, c: Client, x: Stored, rest: seq<Stored>, decrypts: bool, log: seq<Content>)
    requires LogOk(e0, log) && ClientInv(e0, me, c, log) && c.phase == Ready && Honest(e0, log, x)
    requires Scan(e0, [x] + rest, |c.session.commits|).Some?
    ensures
      var c' := Receive(me, c, x, decrypts);
      !c'.phase.Stopped? ==> Scan(e0, rest, |c'.session.commits|) == Scan(e0, [x] + rest, |c.session.commits|)
  {
    ScanCons(e0, x, rest, |c.session.commits|);
    if x.messageId in c.seen {
      SeenIsPassed(e0, c.seen, |c.session.commits|, x, log);
    }
  }

  lemma GetPushKeeps(e0: nat, me: MemberId, mb: Member, v: View, decrypts: bool, log: seq<Content>)
    requires LogOk(e0, log) && MemberInv(e0, me, mb, v, log)
    requires mb.client.phase == Ready && (mb.client.call.NoCall? || mb.client.call.Draining?)
    requires mb.chan.Some? && mb.read < |v.delivered|
    ensures
      var x := v.delivered[mb.read];
      MemberInv(e0, me, mb.(read := mb.read + 1, client := Receive(me, mb.client, x, decrypts)), v, log)
  {
    var x := v.delivered[mb.read];
    assert x in v.delivered;
    ReceiveKeepsClient(e0, me, mb.client, x, decrypts, log);
    ReceiveKeepsMail(e0, me, mb, v, decrypts, log);
    ReceiveKeepsRetry(e0, me, mb, x, decrypts, log);
    ReceiveKeepsSurface(e0, me, mb, x, decrypts, log);
    hide ClientInv, MailInv, RetryInv, SurfaceInv;
  }

  lemma ReceiveKeepsMail(e0: nat, me: MemberId, mb: Member, v: View, decrypts: bool, log: seq<Content>)
    requires LogOk(e0, log) && ClientInv(e0, me, mb.client, log) && mb.client.phase == Ready
    requires MailInv(e0, mb, v, log) && mb.chan.Some? && mb.read < |v.delivered|
    ensures
      var x := v.delivered[mb.read];
      MailInv(e0, mb.(read := mb.read + 1, client := Receive(me, mb.client, x, decrypts)), v, log)
  {
    var x, rest := v.delivered[mb.read], v.delivered[mb.read + 1..];
    assert x in v.delivered;
    assert v.delivered[mb.read..] == [x] + rest;
    ReceiveKeepsPlace(e0, me, mb.client, x, rest, decrypts, log);
    hide ClientInv, Scan;
  }

  lemma ReceiveKeepsRetry(e0: nat, me: MemberId, mb: Member, x: Stored, decrypts: bool, log: seq<Content>)
    requires ClientInv(e0, me, mb.client, log) && RetryInv(me, mb, log) && Honest(e0, log, x)
    ensures RetryInv(me, mb.(read := mb.read + 1, client := Receive(me, mb.client, x, decrypts)), log)
  {
  }

  lemma ReceiveKeepsSurface(e0: nat, me: MemberId, mb: Member, x: Stored, decrypts: bool, log: seq<Content>)
    requires ClientInv(e0, me, mb.client, log) && mb.client.phase == Ready
    requires SurfaceInv(me, mb) && Honest(e0, log, x)
    ensures SurfaceInv(me, mb.(read := mb.read + 1, client := Receive(me, mb.client, x, decrypts)))
  {
    var c, id := mb.client, x.messageId;
    var c' := Receive(me, c, x, decrypts);
    hide Shown;
    if id !in c.seen && !c'.phase.Stopped? {
      ShownSnoc(c.session.applied, id, me, mb.lost);
      assert c'.events == c.events + [EventFor(id)];
      assert mb.surfaced + c'.events == mb.surfaced + c.events + [EventFor(id)];
    }
  }

  lemma SaveKeepsSurface(me: MemberId, mb: Member)
    requires SurfaceInv(me, mb) && PhaseOk(me, mb.client) && mb.client.phase.Unsaved?
    ensures SurfaceInv(me, mb.(client := Save(mb.client)))
  {
    var c := mb.client;
    forall e | e in c.events
      ensures e.id in c.session.applied
    {
      assert e in mb.surfaced + c.events;
      ShownIsApplied(c.session.applied, me, mb.lost, e);
    }
  }

  lemma PersistKeeps(e0: nat, me: MemberId, mb: Member, v: View, log: seq<Content>)
    requires MemberInv(e0, me, mb, v, log) && mb.client.phase.Unsaved?
    ensures MemberInv(e0, me, mb.(client := Save(mb.client)), v, log)
  {
    SaveKeepsClient(e0, me, mb.client, log);
    SaveKeepsSurface(me, mb);
    ScanFurther(e0, v.pending, |mb.client.disk.session.commits|, |mb.client.session.commits|);
    hide SurfaceInv;
  }

  lemma EndAckKeeps(e0: nat, me: MemberId, mb: Member, v: View, dropped: bool, log: seq<Content>)
    requires MemberInv(e0, me, mb, v, log) && mb.client.phase.Acking?
    ensures MemberInv(e0, me, mb.(client := FinishAck(mb.client, dropped)), v, log)
  {
  }

  lemma SurfaceKeeps(e0: nat, me: MemberId, mb: Member, v: View, log: seq<Content>)
    requires MemberInv(e0, me, mb, v, log) && mb.client.events != [] && !mb.client.phase.Unsaved?
    ensures
      var c := mb.client;
      MemberInv(e0, me, mb.(surfaced := mb.surfaced + [c.events[0]], client := c.(events := c.events[1..])), v, log)
  {
    SurfaceKeepsSurface(me, mb);
    hide SurfaceInv;
  }

  lemma SurfaceKeepsSurface(me: MemberId, mb: Member)
    requires SurfaceInv(me, mb) && mb.client.events != [] && !mb.client.phase.Unsaved?
    ensures
      var c := mb.client;
      SurfaceInv(me, mb.(surfaced := mb.surfaced + [c.events[0]], client := c.(events := c.events[1..])))
  {
    var events := mb.client.events;
    assert events == [events[0]] + events[1..];
    assert mb.surfaced + [events[0]] + events[1..] == mb.surfaced + events;
  }

  lemma ComposeKeeps(e0: nat, me: MemberId, mb: Member, v: View, w: Content, log: seq<Content>)
    requires LogOk(e0, log) && MemberInv(e0, me, mb, v, log) && w.Application? && w.author == me
    requires mb.client.phase == Ready && mb.client.call.NoCall?
    ensures MemberInv(e0, me, mb.(client := BeginSend(mb.client, w)), v, log)
  {
  }

  lemma BuildCommitKeeps(e0: nat, me: MemberId, mb: Member, v: View, nonce: nat, log: seq<Content>)
    requires MemberInv(e0, me, mb, v, log) && mb.client.phase == Ready
    requires mb.client.call.NoCall? ||
             (mb.client.call.Draining? && mb.client.session.epoch != mb.client.call.stale)
    ensures
      var mb1 := if mb.client.call.NoCall?
        then mb.(start := |mb.client.session.commits|, conflicts := 0) else mb;
      MemberInv(e0, me, mb1.(client := BeginCommit(mb.client, Commit(me, mb.client.session.epoch, nonce))), v, log)
  {
  }

  lemma ReadReplyKeeps(e0: nat, me: MemberId, mb: Member, v: View, log: seq<Content>)
    requires LogOk(e0, log) && MemberInv(e0, me, mb, v, log) && mb.client.call.Replied?
    ensures
      var lost := mb.client.call.reply == Rejected(EpochConflict);
      MemberInv(e0, me, mb.(client := TakeReply(mb.client),
                            conflicts := if lost then mb.conflicts + 1 else mb.conflicts), v, log)
  {
    TakeReplyKeepsClient(e0, me, mb.client, log);
    TakeReplyKeepsMail(e0, me, mb, v, log);
    TakeReplyKeepsRest(e0, me, mb, v, log);
    hide MailInv, EchoInv, ClientInv, RetryInv, SurfaceInv;
  }

  /** The own commit is past now, wherever its copy stands in the unread mail. */
  lemma TakeReplyKeepsMail(e0: nat, me: MemberId, mb: Member, v: View, log: seq<Content>)
    requires ClientInv(e0, me, mb.client, log) && MailInv(e0, mb, v, log) && mb.client.call.Replied?
    ensures
      var lost := mb.client.call.reply == Rejected(EpochConflict);
      MailInv(e0, mb.(client := TakeReply(mb.client),
                      conflicts := if lost then mb.conflicts + 1 else mb.conflicts), v, log)
  {
    var c := mb.client;
    if c.call.reply == Accepted && mb.chan.Some? {
      var unread, n := v.delivered[mb.read..], |c.session.commits|;
      var h := Scan(e0, unread, n).value;
      ScanGrows(e0, unread, n);
      if n < h {
        ScanFurther(e0, unread, n, n + 1);
      } else {
        ScanAtEnd(e0, unread, n, n + 1);
      }
    }
    hide Scan;
  }

  lemma TakeReplyKeepsRest(e0: nat, me: MemberId, mb: Member, v: View, log: seq<Content>)
    requires ClientInv(e0, me, mb.client, log) && EchoInv(me, mb, v) && RetryInv(me, mb, log) && SurfaceInv(me, mb)
    requires mb.client.call.Replied?
    ensures
      var lost := mb.client.call.reply == Rejected(EpochConflict);
      var mb' := mb.(client := TakeReply(mb.client), conflicts := if lost then mb.conflicts + 1 else mb.conflicts);
      EchoInv(me, mb', v) && RetryInv(me, mb', log) && SurfaceInv(me, mb')
  {
    if mb.client.call.reply == Accepted {
      ShownSnoc(mb.client.session.applied, MessageIdFor(mb.client.call.commit), me, mb.lost);
    }
    hide Shown;
  }

  /** The relay's answer to the awaited commit arrives. */
  lemma ReplyKeepsMember(e0: nat, me: MemberId, mb: Member, v: View, w: Content, reply: Reply, log: seq<Content>)
    requires MemberInv(e0, me, mb, v, log) && mb.client.call == Awaiting(w)
    requires reply == Accepted ==> log != [] && w == log[|log| - 1] && w.epoch == e0 + |log| - 1
    requires reply == Rejected(EpochConflict) ==> w.epoch != e0 + |log|
    ensures MemberInv(e0, me, mb.(client := mb.client.(call := Replied(w, reply))), v, log)
  {
  }

  /** The answer is lost with the connection it came over. */
  lemma LoseReplyKeeps(e0: nat, me: MemberId, mb: Member, v: View, log: seq<Content>)
    requires MemberInv(e0, me, mb, v, log)
    ensures MemberInv(e0, me, mb.(client := ForgetReply(mb.client)), v, log)
  {
  }

  lemma CrashKeeps(e0: nat, me: MemberId, mb: Member, v: View, log: seq<Content>)
    requires MemberInv(e0, me, mb, v, log)
    ensures MemberInv(e0, me, mb.(client := Resume(mb.client), chan := None, read := 0,
                                  lost := mb.lost + Forgotten(mb.client)),
                      View(v.pending, [], false), log)
  {
    CrashKeepsSurface(e0, me, mb, log);
    hide SurfaceInv, Forgotten;
  }

  /** A crash loses exactly the queued events of messages that are on disk. */
  lemma CrashKeepsSurface(e0: nat, me: MemberId, mb: Member, log: seq<Content>)
    requires ClientInv(e0, me, mb.client, log) && SurfaceInv(me, mb)
    ensures SurfaceInv(me, mb.(client := Resume(mb.client), chan := None, read := 0,
                               lost := mb.lost + Forgotten(mb.client)))
  {
    var c := mb.client;
    var n := |c.disk.session.applied|;
    assert c.session.applied[..n] == c.disk.session.applied;
    ShownAfterCrash(c.session.applied, n, me, mb.lost, mb.surfaced, c.events);
    assert mb.surfaced + [] == mb.surfaced;
    hide Shown;
  }

  // ---- what the relay does to a member's view ----------------------------------------------

  /** Mail that is not a commit of the group arrives, `k` times. */
  lemma MailKeeps(e0: nat, me: MemberId, mb: Member, v: View, x: Stored, k: nat, log: seq<Content>)
    requires MemberInv(e0, me, mb, v, log)
    requires x.messageId == MessageIdFor(x.envelope.content) && !x.envelope.content.Commit?
    requires x.envelope.content.Application? && x.envelope.content.author == me ==> x.messageId in mb.client.disk.seen
    ensures
      var v' := View(v.pending + Copies(x, k), v.delivered + Copies(x, if v.listening then k else 0), v.listening);
      MemberInv(e0, me, mb.(arrived := mb.arrived + Ids(v'.pending)), v', log)
  {
    MailKeepsMail(e0, mb, v, x, k, log);
    ArrivalKeepsRest(me, mb, v, x, k, log);
    hide MailInv, EchoInv, ClientInv, RetryInv, SurfaceInv;
  }

  lemma MailKeepsMail(e0: nat, mb: Member, v: View, x: Stored, k: nat, log: seq<Content>)
    requires MailInv(e0, mb, v, log)
    requires x.messageId == MessageIdFor(x.envelope.content) && !x.envelope.content.Commit?
    ensures
      var v' := View(v.pending + Copies(x, k), v.delivered + Copies(x, if v.listening then k else 0), v.listening);
      MailInv(e0, mb.(arrived := mb.arrived + Ids(v'.pending)), v', log)
  {
    var k' := if v.listening then k else 0;
    hide Scan, Ids, AllHonest, Copies, Recorded;
    HonestArrival(e0, log, v.pending, x, k);
    HonestArrival(e0, log, v.delivered, x, k');
    ScanCopies(e0, v.pending, x, k, |mb.client.disk.session.commits|);
    if mb.chan.Some? && !mb.client.phase.Stopped? {
      ScanCopies(e0, v.delivered[mb.read..], x, k', |mb.client.session.commits|);
    }
    ArrivalsRecorded(mb.arrived, v.pending, mb.client.disk.seen, x, k);
    MailExtends(e0, mb, v, Copies(x, k), Copies(x, k'), log);
  }

  /** Mail and connection grown at their ends, with what the invariant asks of the results. */
  lemma MailExtends(e0: nat, mb: Member, v: View, more: seq<Stored>, more': seq<Stored>, log: seq<Content>)
    requires AllHonest(e0, log, v.pending + more) && AllHonest(e0, log, v.delivered + more')
    requires Scan(e0, v.pending + more, |mb.client.disk.session.commits|) == Some(|log|)
    requires mb.read <= |v.delivered|
    requires mb.chan.Some? && !mb.client.phase.Stopped? ==>
      Leads(e0, v.delivered[mb.read..] + more', |mb.client.session.commits|, |log|, v.listening)
    requires Recorded(mb.arrived + Ids(v.pending + more), v.pending + more, mb.client.disk.seen)
    ensures MailInv(e0, mb.(arrived := mb.arrived + Ids(v.pending + more)),
                    View(v.pending + more, v.delivered + more', v.listening), log)
  {
    hide Scan, Ids, AllHonest, Recorded, Leads;
    DropOfAppend(v.delivered, more', mb.read);
  }

  lemma HonestArrival(e0: nat, log: seq<Content>, xs: seq<Stored>, x: Stored, k: nat)
    requires AllHonest(e0, log, xs) && Honest(e0, log, x)
    ensures AllHonest(e0, log, xs + Copies(x, k))
  {
  }

  lemma ArrivalsRecorded(arrived: set<MessageId>, pending: seq<Stored>, seen: set<MessageId>, x: Stored, k: nat)
    requires Recorded(arrived, pending, seen)
    ensures
      var after := pending + Copies(x, k);
      Recorded(arrived + Ids(after), after, seen)
  {
    assert forall id :: id in Ids(pending) ==> id in Ids(pending + Copies(x, k));
  }

  /** Nothing but mail and arrivals changes when a message comes that the member's disk may have sent. */
  lemma ArrivalKeepsRest(me: MemberId, mb: Member, v: View, x: Stored, k: nat, log: seq<Content>)
    requires EchoInv(me, mb, v) && RetryInv(me, mb, log) && SurfaceInv(me, mb)
    requires OwnMessage(x.envelope.content, me) ==> x.messageId in mb.client.disk.seen
    ensures
      var v' := View(v.pending + Copies(x, k), v.delivered + Copies(x, if v.listening then k else 0), v.listening);
      var mb' := mb.(arrived := mb.arrived + Ids(v'.pending));
      EchoInv(me, mb', v') && RetryInv(me, mb', log) && SurfaceInv(me, mb')
  {
    hide Ids;
  }

  /** An honest message stays honest as the log grows. */
  lemma HonestGrows(e0: nat, log: seq<Content>, w: Content, xs: seq<Stored>)
    requires AllHonest(e0, log, xs)
    ensures AllHonest(e0, log + [w], xs)
  {
  }

  /** A newly accepted commit has been seen by no one. */
  lemma ClientGrows(e0: nat, me: MemberId, c: Client, log: seq<Content>, w: Content)
    requires ClientInv(e0, me, c, log) && w.Commit? && w.epoch == e0 + |log|
    ensures ClientInv(e0, me, c, log + [w])
  {
    var log' := log + [w];
    assert log'[..|c.session.commits|] == log[..|c.session.commits|];
    assert log'[..|c.disk.session.commits|] == log[..|c.disk.session.commits|];
    assert forall id :: InLog(e0, log, id) ==> InLog(e0, log', id);
    assert !InLog(e0, log, w);
  }

  /** The relay accepts the next commit and it arrives, `k` times. */
  lemma CommitKeeps(e0: nat, me: MemberId, mb: Member, v: View, x: Stored, k: nat, log: seq<Content>)
    requires MemberInv(e0, me, mb, v, log) && k > 0
    requires x.messageId == MessageIdFor(x.envelope.content)
    requires x.envelope.content.Commit? && x.envelope.content.epoch == e0 + |log|
    ensures
      var v' := View(v.pending + Copies(x, k), v.delivered + Copies(x, if v.listening then k else 0), v.listening);
      MemberInv(e0, me, mb.(arrived := mb.arrived + Ids(v'.pending)), v', log + [x.envelope.content])
  {
    ClientGrows(e0, me, mb.client, log, x.envelope.content);
    CommitKeepsMail(e0, mb, v, x, k, log);
    RetryGrows(me, mb, log, x.envelope.content);
    ArrivalKeepsRest(me, mb, v, x, k, log + [x.envelope.content]);
    hide MailInv, EchoInv, ClientInv, RetryInv, SurfaceInv;
  }

  lemma RetryGrows(me: MemberId, mb: Member, log: seq<Content>, w: Content)
    requires RetryInv(me, mb, log)
    ensures RetryInv(me, mb, log + [w])
  {
  }

  lemma CommitKeepsMail(e0: nat, mb: Member, v: View, x: Stored, k: nat, log: seq<Content>)
    requires MailInv(e0, mb, v, log) && k > 0 && x.messageId == MessageIdFor(x.envelope.content)
    requires x.envelope.content.Commit? && x.envelope.content.epoch == e0 + |log|
    ensures
      var v' := View(v.pending + Copies(x, k), v.delivered + Copies(x, if v.listening then k else 0), v.listening);
      MailInv(e0, mb.(arrived := mb.arrived + Ids(v'.pending)), v', log + [x.envelope.content])
  {
    var k', log' := if v.listening then k else 0, log + [x.envelope.content];
    assert Honest(e0, log', x) && |log'| == |log| + 1;
    hide Scan, Ids, AllHonest, Honest, Copies, Recorded, Leads;
    HonestGrows(e0, log, x.envelope.content, v.pending);
    HonestGrows(e0, log, x.envelope.content, v.delivered);
    HonestArrival(e0, log', v.pending, x, k);
    HonestArrival(e0, log', v.delivered, x, k');
    ScanCopies(e0, v.pending, x, k, |mb.client.disk.session.commits|);
    if mb.chan.Some? && !mb.client.phase.Stopped? {
      CommitOnConnection(e0, v.delivered[mb.read..], x, k', |mb.client.session.commits|, |log|, v.listening);
    }
    ArrivalsRecorded(mb.arrived, v.pending, mb.client.disk.seen, x, k);
    MailExtends(e0, mb, v, Copies(x, k), Copies(x, k'), log');
    hide MailInv;
  }

  lemma CommitOnConnection(e0: nat, unread: seq<Stored>, x: Stored, k: nat, n: nat, head: nat, listening: bool)
    requires Leads(e0, unread, n, head, listening) && (listening <==> k > 0)
    requires Position(e0, x) == Some(head)
    ensures Leads(e0, unread + Copies(x, k), n, head + 1, listening)
  {
    if listening {
      ScanCopies(e0, unread, x, k, n);
    } else {
      assert unread + Copies(x, k) == unread;
    }
  }

  /** The member's own ack takes effect, however late. */
  lemma AckKeeps(e0: nat, me: MemberId, mb: Member, v: View, id: MessageId, log: seq<Content>)
    requires MemberInv(e0, me, mb, v, log) && id in mb.client.acks
    ensures
      var v' := v.(pending := Without(v.pending, id));
      MemberInv(e0, me, mb.(arrived := mb.arrived + Ids(v'.pending)), v', log)
  {
    var kept, n := Without(v.pending, id), |mb.client.disk.session.commits|;
    forall i | 0 <= i < |v.pending| && v.pending[i].messageId == id
      ensures Position(e0, v.pending[i]).None? || Position(e0, v.pending[i]).value < n
    {
      assert v.pending[i] in v.pending;
      SeenIsPassed(e0, mb.client.disk.seen, n, v.pending[i], log);
    }
    ScanWithout(e0, v.pending, id, n);
    forall x
      ensures x in kept <==> x in v.pending && x.messageId != id
    {
      WithoutIn(v.pending, id, x);
    }
    forall a | a in Ids(v.pending) && a != id
      ensures a in Ids(kept)
    {
      var x :| x in v.pending && x.messageId == a;
      assert x in kept;
    }
  }

  /** A new connection is handed the whole backlog. */
  lemma ConnectKeeps(e0: nat, me: MemberId, mb: Member, v: View, chan: Chan, log: seq<Content>)
    requires MemberInv(e0, me, mb, v, log)
    ensures
      MemberInv(e0, me, mb.(chan := Some(chan), read := 0, client := ForgetReply(mb.client),
                            arrived := mb.arrived + Ids(v.pending)),
                View(v.pending, v.pending, true), log)
  {
    assert v.pending[0..] == v.pending;
    ScanFurther(e0, v.pending, |mb.client.disk.session.commits|, |mb.client.session.commits|);
  }

  /** Nothing arrives; the connection may have died. */
  lemma QuietKeeps(e0: nat, me: MemberId, mb: Member, v: View, v': View, log: seq<Content>)
    requires MemberInv(e0, me, mb, v, log)
    requires v'.pending == v.pending && v'.delivered == v.delivered && (v'.listening ==> v.listening)
    ensures MemberInv(e0, me, mb, v', log)
    ensures MemberInv(e0, me, mb.(arrived := mb.arrived + Ids(v'.pending)), v', log)
  {
  }
}
