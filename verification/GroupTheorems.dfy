/** What holds of the group in every run, under every schedule, loss and crash. */
module GroupTheorems {
  import opened Base
  import opened Wire
  import opened Relay
  import opened RelayEffects
  import opened RelayDb
  import opened Mail
  import opened Engine
  import opened Group
  import opened GroupInv
  import opened Surfacing
  import opened GroupProof

  /** The invariant, unpacked for one member of a reachable state. */
  lemma Reached(g: Config, s0: Sys, actions: seq<Action>, m: MemberId)
    requires Init(g, s0) && m in Exec(g, s0, actions).members
    ensures
      var s := Exec(g, s0, actions);
      SysInv(g, s) && m in g.mailbox && MemberOk(g, s.relay, s.log, m, s.members[m])
  {
    RunKeeps(g, s0, actions);
  }

  function ClientOf(s: Sys, m: MemberId): Client
    requires m in s.members
  {
    s.members[m].client
  }

  // ---- agreement -----------------------------------------------------------------------------

  /**
   * Each member's merged commits, in memory and on disk, are a prefix of the relay's accepted
   * log, as long as its epoch has advanced; members at one epoch have merged the same commits.
   */
  lemma CommitLogAgreement(g: Config, s0: Sys, actions: seq<Action>, a: MemberId, b: MemberId)
    requires Init(g, s0)
    requires a in Exec(g, s0, actions).members && b in Exec(g, s0, actions).members
    ensures
      var s := Exec(g, s0, actions);
      var ca, cb := ClientOf(s, a), ClientOf(s, b);
      && ca.session.commits <= s.log && ca.disk.session.commits <= s.log
      && ca.session.epoch == g.epoch0 + |ca.session.commits|
      && g.inbox in s.relay.queues && s.relay.queues[g.inbox].kind == GroupInbox(g.epoch0 + |s.log|, g.roster)
      && (ca.session.epoch <= cb.session.epoch ==> ca.session.commits <= cb.session.commits)
      && (ca.session.epoch == cb.session.epoch ==> ca.session.commits == cb.session.commits)
  {
    hide Exec, MemberInv, MembersOk, LandedInv, Mirrors, SubsDistinct;
    var s := Exec(g, s0, actions);
    Reached(g, s0, actions, a);
    Reached(g, s0, actions, b);
    SessionsOnLog(g.epoch0, a, s.members[a], ViewOf(g, s.relay, a, s.members[a]), s.log);
    SessionsOnLog(g.epoch0, b, s.members[b], ViewOf(g, s.relay, b, s.members[b]), s.log);
  }

  lemma SessionsOnLog(e0: nat, me: MemberId, mb: Member, v: View, log: seq<Content>)
    requires MemberInv(e0, me, mb, v, log)
    ensures SessionOk(e0, mb.client.session, log) && SessionOk(e0, mb.client.disk.session, log)
  {
  }

  // ---- no burned epoch -----------------------------------------------------------------------

  /** `ps` exhibits the log from position `n` on in `xs`, in order. */
  ghost predicate Holds(e0: nat, xs: seq<Stored>, log: seq<Content>, n: nat, ps: seq<nat>) {
    && Carries(e0, xs, n, |log|, ps)
    && forall k :: 0 <= k < |ps| ==> xs[ps[k]].envelope.content == log[n + k]
  }

  lemma HonestScanHolds(e0: nat, xs: seq<Stored>, log: seq<Content>, n: nat) returns (ps: seq<nat>)
    requires AllHonest(e0, log, xs) && Scan(e0, xs, n) == Some(|log|)
    ensures Holds(e0, xs, log, n, ps)
  {
    ps := ScanCarries(e0, xs, n, |log|);
    forall k | 0 <= k < |ps|
      ensures xs[ps[k]].envelope.content == log[n + k]
    {
      assert xs[ps[k]] in xs;
    }
  }

  lemma UnmergedInMail(e0: nat, me: MemberId, mb: Member, v: View, log: seq<Content>)
    returns (onDisk: seq<nat>, onWire: seq<nat>)
    requires MemberInv(e0, me, mb, v, log)
    ensures
      var c := mb.client;
      var nd, n := |c.disk.session.commits|, |c.session.commits|;
      && Holds(e0, v.pending, log, nd, onDisk) && Unmet(c.disk.seen, nd, log)
      && (!c.phase.Stopped? ==> Unmet(c.seen, n, log))
      && (mb.chan.Some? && !c.phase.Stopped? && v.listening ==>
            mb.read <= |v.delivered| && Holds(e0, v.delivered[mb.read..], log, n, onWire))
  {
    onDisk := HonestScanHolds(e0, v.pending, log, |mb.client.disk.session.commits|);
    if mb.chan.Some? && !mb.client.phase.Stopped? && v.listening {
      onWire := HonestScanHolds(e0, v.delivered[mb.read..], log, |mb.client.session.commits|);
    } else {
      onWire := [];
    }
  }

  /**
   * The accepted commits a member has not merged are all still in its mailbox, unacked and in
   * epoch order, and unseen by its disk; a live connection still has them to deliver.
   */
  lemma NoBurnedEpoch(g: Config, s0: Sys, actions: seq<Action>, m: MemberId)
    returns (onDisk: seq<nat>, onWire: seq<nat>)
    requires Init(g, s0) && m in Exec(g, s0, actions).members && m in g.mailbox
    ensures
      var s := Exec(g, s0, actions);
      var mb, c := s.members[m], ClientOf(s, m);
      var nd, n := |c.disk.session.commits|, |c.session.commits|;
      && Holds(g.epoch0, Pending(s.relay, g.mailbox[m]), s.log, nd, onDisk)
      && Unmet(c.disk.seen, nd, s.log)
      && (!c.phase.Stopped? ==> Unmet(c.seen, n, s.log))
      && (mb.chan.Some? && !c.phase.Stopped? && Listening(s.relay, mb.chan.value, g.mailbox[m]) ==>
            Holds(g.epoch0, Unread(g, s, m), s.log, n, onWire))
  {
    hide MemberInv, SysInv, Holds, Unmet;
    var s := Exec(g, s0, actions);
    Reached(g, s0, actions, m);
    onDisk, onWire := UnmergedInMail(g.epoch0, m, s.members[m], ViewOf(g, s.relay, m, s.members[m]), s.log);
  }

  /** A member draining after a conflict has a winner to find: its epoch's commit was accepted. */
  lemma ConflictHasWinner(g: Config, s0: Sys, actions: seq<Action>, m: MemberId)
    requires Init(g, s0) && m in Exec(g, s0, actions).members
    requires
      var c := ClientOf(Exec(g, s0, actions), m);
      c.call.Draining? && c.call.stale == c.session.epoch
    ensures
      var s := Exec(g, s0, actions);
      var c := ClientOf(s, m);
      && |c.session.commits| < |s.log| && s.log[|c.session.commits|].Commit?
      && s.log[|c.session.commits|].epoch == c.session.epoch
  {
    hide Exec, MembersOk, LandedInv, RelayOk, MailInv, SurfaceInv, RetryInv;
    Reached(g, s0, actions, m);
  }

  // ---- at most once, nothing lost --------------------------------------------------------------

  /**
   * No message id is applied twice to a durable session lineage or shown twice to the user:
   * whatever was applied has been seen, in memory and on disk.
   */
  lemma AppliedAtMostOnce(g: Config, s0: Sys, actions: seq<Action>, m: MemberId)
    requires Init(g, s0) && m in Exec(g, s0, actions).members
    ensures
      var mb := Exec(g, s0, actions).members[m];
      var c := mb.client;
      && Distinct(c.session.applied) && Distinct(c.disk.session.applied)
      && (forall id :: id in c.session.applied ==> id in c.seen)
      && (forall id :: id in c.disk.session.applied ==> id in c.disk.seen)
      && (forall i, j :: 0 <= i < j < |mb.surfaced| ==> mb.surfaced[i].id != mb.surfaced[j].id)
      && (forall e :: e in mb.surfaced ==> e.id in c.disk.session.applied)
  {
    ReachedSurface(g, s0, actions, m);
    hide Exec, Init;
    var mb := Exec(g, s0, actions).members[m];
    var all := mb.surfaced + mb.client.events;
    forall i, j | 0 <= i < j < |mb.surfaced|
      ensures mb.surfaced[i].id != mb.surfaced[j].id
    {
      ShownOnce(mb.client.session.applied, m, mb.lost, i, j);
      assert all[i] == mb.surfaced[i] && all[j] == mb.surfaced[j];
    }
  }

  lemma ReachedSurface(g: Config, s0: Sys, actions: seq<Action>, m: MemberId)
    requires Init(g, s0) && m in Exec(g, s0, actions).members
    ensures
      var mb := Exec(g, s0, actions).members[m];
      var c := mb.client;
      && SurfaceInv(m, mb) && Distinct(c.session.applied) && Distinct(c.disk.session.applied)
      && (forall id :: id in c.session.applied ==> id in c.seen)
      && (forall id :: id in c.disk.session.applied ==> id in c.disk.seen)
  {
    Reached(g, s0, actions, m);
    hide Exec, Init, SurfaceInv, MailInv, EchoInv, RetryInv, MembersOk, LandedInv, RelayOk;
  }

  // ---- what the user is shown ------------------------------------------------------------------

  /**
   * In every run a member's user has been shown, in order, and has still queued, exactly the events of
   * the messages the session applied, without the member's own commits and those lost to a crash: a
   * message as itself, a commit as the epoch it led to.
   */
  lemma ShownExactly(g: Config, s0: Sys, actions: seq<Action>, m: MemberId)
    requires Init(g, s0) && m in Exec(g, s0, actions).members
    ensures
      var mb := Exec(g, s0, actions).members[m];
      && mb.surfaced + mb.client.events == Shown(mb.client.session.applied, m, mb.lost)
      && (forall id :: id in mb.lost ==> id in mb.client.disk.session.applied && EventFor(id) !in mb.surfaced)
  {
    ReachedSurface(g, s0, actions, m);
    hide Exec, Init, Shown;
    var mb := Exec(g, s0, actions).members[m];
    forall id | id in mb.lost
      ensures EventFor(id) !in mb.surfaced + mb.client.events
    {
      ShownIsApplied(mb.client.session.applied, m, mb.lost, EventFor(id));
    }
  }

  /** A step loses events only by crashing the member, and then only ones queued and not shown. */
  lemma StepLoses(g: Config, s: Sys, a: Action, m: MemberId)
    requires m in s.members
    ensures
      var t := Act(g, s, a);
      m in t.members &&
      t.members[m].lost == if a == By(m, CrashAndResume) && m in g.mailbox
                           then s.members[m].lost + Forgotten(s.members[m].client) else s.members[m].lost
  {
    match a
    case RelayRestarts(now) =>
    case Outside(op, now) =>
      HandleLoses(g, s, op, now, m);
      hide Handle, Permitted;
    case By(k, move) =>
      if k in s.members && k in g.mailbox && CanMove(g, s, k, move) {
        MoveLoses(g, s, k, move, m);
      }
      hide Moved, CanMove;
  }

  lemma HandleLoses(g: Config, s: Sys, op: Op, now: int, m: MemberId)
    requires m in s.members
    ensures
      var t := Handle(g, s, op, now);
      t.members.Keys == s.members.Keys && t.members[m].lost == s.members[m].lost
  {
    hide Do, DbDo;
  }

  lemma MoveLoses(g: Config, s: Sys, k: MemberId, move: Move, m: MemberId)
    requires m in s.members && k in s.members && k in g.mailbox && CanMove(g, s, k, move)
    ensures
      var t := Moved(g, s, k, move);
      m in t.members &&
      t.members[m].lost == if k == m && move.CrashAndResume?
                           then s.members[m].lost + Forgotten(s.members[m].client) else s.members[m].lost
  {
    hide Do, Handle, Forgotten, Receive, Save, FinishAck, BeginSend, BeginCommit, TakeReply, Resume, ForgetReply;
    match move
    case Connect(chan) => HandleLoses(g, s, OpSubscribe([g.mailbox[k]], chan), 0, m);
    case AckArrives(id, now) => HandleLoses(g, s, OpAck(g.mailbox[k], id), now, m);
    case MessageArrives(w, size, now) => HandleLoses(g, s, MessageOp(g, w, size), now, m);
    case CommitArrives(w, size, now) => HandleLoses(g, s, CommitOp(g, w, size), now, m);
    case _ =>
  }

  /** Whatever a member's user will never be shown was queued, on disk and unshown, at a crash of that member. */
  lemma {:induction false} LostAtACrash(g: Config, s0: Sys, actions: seq<Action>, m: MemberId, id: MessageId)
    returns (i: nat)
    requires Init(g, s0) && m in s0.members && m in Exec(g, s0, actions).members
    requires id in Exec(g, s0, actions).members[m].lost
    ensures i < |actions| && actions[i] == By(m, CrashAndResume)
    ensures
      var s := Exec(g, s0, actions[..i]);
      m in s.members && exists e :: e in s.members[m].client.events && e.id == id
  {
    NothingLostAtFirst(g, s0, m);
    hide Act, Init, Forgotten;
    var before := actions[..|actions| - 1];
    MembersStay(g, s0, before, m);
    StepLoses(g, Exec(g, s0, before), actions[|actions| - 1], m);
    if id in Exec(g, s0, before).members[m].lost {
      i := LostAtACrash(g, s0, before, m, id);
      assert before[..i] == actions[..i];
    } else {
      i := |actions| - 1;
      ForgottenWasQueued(Exec(g, s0, before).members[m].client, id);
    }
  }

  lemma NothingLostAtFirst(g: Config, s0: Sys, m: MemberId)
    requires Init(g, s0) && m in s0.members
    ensures s0.members[m].lost == {}
  {
    assert FreshMember(g, s0.members[m]);
  }

  lemma ForgottenWasQueued(c: Client, id: MessageId)
    requires id in Forgotten(c)
    ensures exists e :: e in c.events && e.id == id
  {
  }

  /** Without a crash of the member nothing it applied goes unshown. */
  lemma NoCrashShowsAll(g: Config, s0: Sys, actions: seq<Action>, m: MemberId)
    requires Init(g, s0) && m in s0.members && By(m, CrashAndResume) !in actions
    ensures m in Exec(g, s0, actions).members
    ensures
      var mb := Exec(g, s0, actions).members[m];
      mb.surfaced + mb.client.events == Shown(mb.client.session.applied, m, {})
  {
    hide Init, Exec, Shown;
    MembersStay(g, s0, actions, m);
    ShownExactly(g, s0, actions, m);
    NoCrashNoLoss(g, s0, actions, m);
  }

  lemma NoCrashNoLoss(g: Config, s0: Sys, actions: seq<Action>, m: MemberId)
    requires Init(g, s0) && m in s0.members && m in Exec(g, s0, actions).members
    requires By(m, CrashAndResume) !in actions
    ensures Exec(g, s0, actions).members[m].lost == {}
  {
    hide Init, Exec;
    var lost := Exec(g, s0, actions).members[m].lost;
    forall id | id in lost
      ensures false
    {
      var i := LostAtACrash(g, s0, actions, m, id);
    }
  }

  lemma {:induction false} MembersStay(g: Config, s0: Sys, actions: seq<Action>, m: MemberId)
    requires m in s0.members
    ensures m in Exec(g, s0, actions).members
  {
    hide Act;
    if actions != [] {
      MembersStay(g, s0, actions[..|actions| - 1], m);
      StepLoses(g, Exec(g, s0, actions[..|actions| - 1]), actions[|actions| - 1], m);
    }
  }

  /**
   * Another member's message or commit that ever arrived is still in the mailbox, or has been shown or
   * is queued to be, or is among those lost to a crash.
   */
  lemma ArrivalsAreShown(g: Config, s0: Sys, actions: seq<Action>, m: MemberId, id: MessageId)
    requires Init(g, s0) && m in Exec(g, s0, actions).members && m in g.mailbox
    requires id in Exec(g, s0, actions).members[m].arrived
    requires !id.content.Foreign? && id.content.author != m
    ensures
      var s := Exec(g, s0, actions);
      var mb := s.members[m];
      id in Ids(Pending(s.relay, g.mailbox[m])) || EventFor(id) in mb.surfaced + mb.client.events || id in mb.lost
  {
    Reached(g, s0, actions, m);
    var s := Exec(g, s0, actions);
    var mb := s.members[m];
    ArrivedIsApplied(g.epoch0, m, mb, ViewOf(g, s.relay, m, mb), s.log, id);
    ShownExactly(g, s0, actions, m);
    ShownIsApplied(mb.client.session.applied, m, mb.lost, EventFor(id));
    hide MemberInv, SysInv, Shown;
  }

  lemma ArrivedIsApplied(e0: nat, me: MemberId, mb: Member, v: View, log: seq<Content>, id: MessageId)
    requires MemberInv(e0, me, mb, v, log) && id in mb.arrived && !id.content.Foreign? && id.content.author != me
    ensures id in Ids(v.pending) || id in mb.client.session.applied
  {
    hide Shown, Scan, EchoInv, RetryInv, CallOk;
  }

  /**
   * Nothing is acked before it is on disk, so every message that ever arrived is still in the
   * mailbox or on the disk's record.
   */
  lemma NothingLost(g: Config, s0: Sys, actions: seq<Action>, m: MemberId, id: MessageId)
    requires Init(g, s0) && m in Exec(g, s0, actions).members && m in g.mailbox
    ensures
      var s := Exec(g, s0, actions);
      var c := ClientOf(s, m);
      && (id in c.acks ==> id in c.disk.seen)
      && (id in s.members[m].arrived ==> id in Ids(Pending(s.relay, g.mailbox[m])) || id in c.disk.seen)
  {
    Reached(g, s0, actions, m);
  }

  // ---- sending ---------------------------------------------------------------------------------

  /** Composing and saving hands one new message of the member to the network, once it is on disk. */
  lemma ComposedGoesOut(g: Config, s: Sys, m: MemberId)
    requires m in s.members && m in g.mailbox && CanMove(g, s, m, Compose)
    ensures
      var w := Application(m, s.members[m].client.session.epoch, s.nonce);
      var t := Act(g, Act(g, s, By(m, Compose)), By(m, Persist));
      && m in t.members && t.nonce == s.nonce + 1 && t.relay == s.relay
      && ClientOf(t, m).outbox == ClientOf(s, m).outbox + {w}
      && MessageIdFor(w) in ClientOf(t, m).disk.seen && MessageIdFor(w) in ClientOf(t, m).seen
      && ClientOf(t, m).phase == Ready && ClientOf(t, m).session == ClientOf(s, m).session
  {
    var u := Act(g, s, By(m, Compose));
    assert u == Moved(g, s, m, Compose);
    hide Delivered, FreshChan;
  }

  function SendOp(g: Config, w: Content, size: nat): Op {
    if w.Commit? then CommitOp(g, w, size) else MessageOp(g, w, size)
  }

  /** In every run a message or commit the relay accepts from the group lands in every member's mailbox. */
  lemma AcceptedReachesEveryone(
    g: Config, s0: Sys, actions: seq<Action>, w: Content, size: nat, now: int, m: MemberId)
    requires Init(g, s0) && m in Exec(g, s0, actions).members
    requires Do(Exec(g, s0, actions).relay, SendOp(g, w, size), now).1 == Accepted
    ensures
      var t := Handle(g, Exec(g, s0, actions), SendOp(g, w, size), now);
      && m in t.members && m in g.mailbox && MessageIdFor(w) in t.members[m].arrived
      && Pending(t.relay, g.mailbox[m]) != []
      && Pending(t.relay, g.mailbox[m])[|Pending(t.relay, g.mailbox[m])| - 1] == StoredOf(Wrap(w, size))
  {
    Reached(g, s0, actions, m);
    hide Exec, Init, MemberInv, LandedInv, MembersOk, Mirrors, Do, DbDo, Pending, Handle;
    SendReaches(g, Exec(g, s0, actions), w, size, now, m);
  }

  lemma SendReaches(g: Config, s: Sys, w: Content, size: nat, now: int, m: MemberId)
    requires SubsDistinct(s.relay) && m in s.members && m in g.mailbox && IsMailbox(s.relay, g.mailbox[m])
    requires g.mailbox[m] in g.roster && InboxOk(g, s.relay, |s.log|)
    requires Do(s.relay, SendOp(g, w, size), now).1 == Accepted
    ensures
      var t := Handle(g, s, SendOp(g, w, size), now);
      && m in t.members && m in g.mailbox && MessageIdFor(w) in t.members[m].arrived
      && Pending(t.relay, g.mailbox[m]) != []
      && Pending(t.relay, g.mailbox[m])[|Pending(t.relay, g.mailbox[m])| - 1] == StoredOf(Wrap(w, size))
  {
    hide Do, DbDo, SubsDistinct, Pending, IsMailbox, Delivered, Listening;
    var op, x := SendOp(g, w, size), StoredOf(Wrap(w, size));
    var k := SendView(g, s.relay, op, now, m, s.members[m]);
    CountPositive(g.roster, g.mailbox[m]);
    var pending := Pending(Do(s.relay, op, now).0, g.mailbox[m]);
    assert pending == Pending(s.relay, g.mailbox[m]) + Copies(x, k);
    assert pending[|pending| - 1] == x && x in pending;
    assert x.messageId in Ids(pending);
  }

  // ---- the retry loop --------------------------------------------------------------------------

  /** Commits by others from position `from` on. */
  function ByOthers(log: seq<Content>, from: nat, m: MemberId): nat
    decreases |log| - from
  {
    if from >= |log| then 0
    else (if log[from].Commit? && log[from].author != m then 1 else 0) + ByOthers(log, from + 1, m)
  }

  lemma {:induction false} ByOthersRun(log: seq<Content>, lo: nat, hi: nat, m: MemberId)
    requires OthersOnly(log, lo, hi, m)
    ensures ByOthers(log, lo, m) == hi - lo + ByOthers(log, hi, m)
    decreases hi - lo
  {
    if lo < hi {
      ByOthersRun(log, lo + 1, hi, m);
    }
  }

  /** The call is draining for the winner of a round, and the winner is its own earlier commit. */
  predicate AgainstItself(c: Client, log: seq<Content>, m: MemberId) {
    var n := |c.session.commits|;
    c.call.Draining? && c.call.stale == c.session.epoch && n < |log| && OwnCommit(log[n], m)
  }

  /**
   * The conflicts one `commit_self_update` has suffered are at most the other members' commits
   * accepted beyond its starting epoch, plus one only while it is up against its own commit,
   * accepted earlier with the reply lost.
   */
  lemma RetryBound(g: Config, s0: Sys, actions: seq<Action>, m: MemberId)
    requires Init(g, s0) && m in Exec(g, s0, actions).members
    requires ClientOf(Exec(g, s0, actions), m).call != NoCall
    ensures
      var s := Exec(g, s0, actions);
      var mb, n := s.members[m], |ClientOf(s, m).session.commits|;
      && OthersOnly(s.log, mb.start, n, m)
      && mb.conflicts <= ByOthers(s.log, mb.start, m) + (if AgainstItself(mb.client, s.log, m) then 1 else 0)
  {
    hide Exec, MembersOk, LandedInv, RelayOk, MailInv, SurfaceInv;
    Reached(g, s0, actions, m);
    var s := Exec(g, s0, actions);
    ByOthersRun(s.log, s.members[m].start, |ClientOf(s, m).session.commits|, m);
  }

  /** A waiting call's commit is pending, on its way, and for the session's epoch; a lost one is discarded. */
  predicate PendingStands(c: Client, me: MemberId) {
    match c.call
    case NoCall => true
    case Draining(_) => c.session.pending.None?
    case _ =>
      && c.session.pending == Some(c.call.commit) && c.call.commit in c.commitsOut
      && OwnCommit(c.call.commit, me) && c.call.commit.epoch == c.session.epoch
  }

  /**
   * In every run a waiting call has its commit pending and on its way, for its session's epoch; a call
   * that lost its round has discarded it, and can build the next one as soon as the epoch has moved.
   */
  lemma RetryCanGoOn(g: Config, s0: Sys, actions: seq<Action>, m: MemberId)
    requires Init(g, s0) && m in Exec(g, s0, actions).members
    ensures
      var s := Exec(g, s0, actions);
      var c := ClientOf(s, m);
      && m in g.mailbox && PendingStands(c, m)
      && (c.call.Draining? && c.phase == Ready && c.session.epoch != c.call.stale ==> CanMove(g, s, m, BuildCommit))
  {
    hide Exec, Init, MemberInv, RelayOk, MembersOk, LandedInv, IsMailbox, Unread, FreshChan;
    var s := Exec(g, s0, actions);
    Reached(g, s0, actions, m);
    CallFacts(g.epoch0, m, s.members[m], ViewOf(g, s.relay, m, s.members[m]), s.log);
  }

  lemma CallFacts(e0: nat, me: MemberId, mb: Member, v: View, log: seq<Content>)
    requires MemberInv(e0, me, mb, v, log)
    ensures PendingStands(mb.client, me)
  {
    hide MailInv, EchoInv, RetryInv, SurfaceInv, SeenOk, Unmet, PhaseOk, DiskMet;
  }

  /**
   * In every run a call whose answer is lost, with its connection or without, waits for the same commit
   * as before, which can still reach the relay again.
   */
  lemma LostReplyIsAskedAgain(
    g: Config, s0: Sys, actions: seq<Action>, m: MemberId, move: Move, size: nat, now: int)
    requires Init(g, s0) && m in Exec(g, s0, actions).members && m in g.mailbox
    requires move.LoseReply? || move.Connect?
    requires CanMove(g, Exec(g, s0, actions), m, move)
    requires ClientOf(Exec(g, s0, actions), m).call.Awaiting? || ClientOf(Exec(g, s0, actions), m).call.Replied?
    ensures
      var c := ClientOf(Exec(g, s0, actions), m);
      var t := Act(g, Exec(g, s0, actions), By(m, move));
      && m in t.members && ClientOf(t, m) == c.(call := Awaiting(c.call.commit))
      && CanMove(g, t, m, CommitArrives(c.call.commit, size, now))
  {
    hide Exec, Init, FreshChan;
    RetryCanGoOn(g, s0, actions, m);
    var s := Exec(g, s0, actions);
    hide Act;
    ReplyLost(g, s, m, move);
  }

  lemma ReplyLost(g: Config, s: Sys, m: MemberId, move: Move)
    requires m in s.members && m in g.mailbox && (move.LoseReply? || move.Connect?) && CanMove(g, s, m, move)
    requires ClientOf(s, m).call.Awaiting? || ClientOf(s, m).call.Replied?
    ensures
      var c := ClientOf(s, m);
      var t := Act(g, s, By(m, move));
      m in t.members && ClientOf(t, m) == c.(call := Awaiting(c.call.commit))
  {
    hide Do, DbDo, FreshChan, Unread;
  }

  /** How a reply leaves the client that read it. */
  predicate RoundSettled(c: Client, d: Client, log: seq<Content>)
    requires c.call.Replied?
  {
    var w, n := c.call.commit, |c.session.commits|;
    match c.call.reply
    case Accepted =>
      && n < |log| && log[n] == w
      && d.session.commits == log[..n + 1] && d.session.epoch == c.session.epoch + 1 && d.session.pending.None?
      && MessageIdFor(w) in d.seen && d.phase == Unsaved(MessageIdFor(w), ReturnIt(w))
    case Rejected(EpochConflict) =>
      && n < |log| && d == c.(call := Draining(c.session.epoch), session := c.session.(pending := None))
    case Rejected(_) => d == c.(call := NoCall)
  }

  /**
   * In every run a reply settles its round: acceptance merges the call's own commit, which is the log's at
   * that epoch, and leads to the return; a conflict leaves the session at its epoch to drain; any other
   * rejection ends the call and changes nothing else.
   */
  lemma RepliesSettle(g: Config, s0: Sys, actions: seq<Action>, m: MemberId)
    requires Init(g, s0) && m in Exec(g, s0, actions).members && m in g.mailbox
    requires CanMove(g, Exec(g, s0, actions), m, ReadReply)
    ensures
      var s := Exec(g, s0, actions);
      var t := Act(g, s, By(m, ReadReply));
      && m in t.members && t.relay == s.relay && t.log == s.log
      && ClientOf(s, m).call.Replied? && RoundSettled(ClientOf(s, m), ClientOf(t, m), s.log)
  {
    hide Exec, Init, MemberInv, RelayOk, MembersOk, LandedInv, IsMailbox, Unread, FreshChan;
    var s := Exec(g, s0, actions);
    Reached(g, s0, actions, m);
    ReadReplyMoves(g, s, m);
    ReplyFacts(g.epoch0, m, s.members[m], ViewOf(g, s.relay, m, s.members[m]), s.log);
    hide Act, RoundSettled, TakeReply;
  }

  lemma ReadReplyMoves(g: Config, s: Sys, m: MemberId)
    requires m in s.members && m in g.mailbox && CanMove(g, s, m, ReadReply)
    ensures
      var t := Act(g, s, By(m, ReadReply));
      && m in t.members && t.relay == s.relay && t.log == s.log
      && ClientOf(s, m).call.Replied? && ClientOf(t, m) == TakeReply(ClientOf(s, m))
  {
    hide TakeReply, Unread, FreshChan;
  }

  lemma ReplyFacts(e0: nat, me: MemberId, mb: Member, v: View, log: seq<Content>)
    requires MemberInv(e0, me, mb, v, log) && mb.client.call.Replied?
    ensures RoundSettled(mb.client, TakeReply(mb.client), log)
  {
    hide MailInv, EchoInv, RetryInv, SurfaceInv, SeenOk, Unmet;
    var n := |mb.client.session.commits|;
    assert n < |log| ==> log[..n + 1] == log[..n] + [log[n]];
  }

  /**
   * Every call that has returned names the log position of its own commit, and lost at most as many
   * rounds as other members' commits stand between its start and that position.
   */
  lemma ReturnsNameTheirCommit(g: Config, s0: Sys, actions: seq<Action>, i: nat)
    requires Init(g, s0) && i < |Exec(g, s0, actions).landed|
    ensures
      var s := Exec(g, s0, actions);
      var r := s.landed[i];
      var at := r.epoch - 1 - g.epoch0;
      && 0 <= at < |s.log| && s.log[at] == r.commit && OwnCommit(r.commit, r.member)
      && r.conflicts <= ByOthers(s.log[..at], r.start, r.member)
  {
    hide RelayOk, MembersOk, Exec, Init;
    RunKeeps(g, s0, actions);
    var s := Exec(g, s0, actions);
    var r := s.landed[i];
    assert LandedOk(g.epoch0, s.log, s.members, r);
    ByOthersRun(s.log[..r.epoch - 1 - g.epoch0], r.start, r.epoch - 1 - g.epoch0, r.member);
  }

  /** No two calls of the group ever return the same epoch. */
  lemma ReturnsAreDistinct(g: Config, s0: Sys, actions: seq<Action>, i: nat, j: nat)
    requires Init(g, s0) && i < |Exec(g, s0, actions).landed| && j < |Exec(g, s0, actions).landed| && i != j
    ensures Exec(g, s0, actions).landed[i].epoch != Exec(g, s0, actions).landed[j].epoch
  {
    hide RelayOk, MembersOk;
    RunKeeps(g, s0, actions);
  }

  // ---- draining --------------------------------------------------------------------------------

  /** The first position from `n` on whose commit is the member's own, or the head of the log. */
  function FirstOwn(log: seq<Content>, n: nat, m: MemberId): nat
    decreases |log| - n
  {
    if n >= |log| then |log| else if OwnCommit(log[n], m) then n else FirstOwn(log, n + 1, m)
  }

  lemma {:induction false} FirstOwnIsFirst(log: seq<Content>, n: nat, m: MemberId)
    requires n <= |log|
    ensures n <= FirstOwn(log, n, m) <= |log|
    ensures forall i :: n <= i < FirstOwn(log, n, m) ==> !OwnCommit(log[i], m)
    ensures FirstOwn(log, n, m) < |log| ==> OwnCommit(log[FirstOwn(log, n, m)], m)
    decreases |log| - n
  {
    if n < |log| && !OwnCommit(log[n], m) {
      FirstOwnIsFirst(log, n + 1, m);
    }
  }

  /** What a drain needs of the messages: group mail only, and the member's own messages seen. */
  ghost predicate Drainable(e0: nat, me: MemberId, seen: set<MessageId>, log: seq<Content>, xs: seq<Stored>) {
    && AllHonest(e0, log, xs)
    && forall x :: x in xs ==>
         && !x.envelope.content.Foreign?
         && (x.envelope.content.Application? && x.envelope.content.author == me ==> x.messageId in seen)
  }

  lemma PumpKeeps(e0: nat, me: MemberId, c: Client, x: Stored, log: seq<Content>)
    requires LogOk(e0, log) && ClientInv(e0, me, c, log) && Honest(e0, log, x)
    requires c.phase == Ready && (c.call.NoCall? || c.call.Draining?)
    ensures
      var c' := Pump(me, c, x);
      && ClientInv(e0, me, c', log) && c.seen <= c'.seen
      && (c'.phase == Ready || c'.phase == Stopped) && c'.call == c.call
  {
    ReceiveKeepsClient(e0, me, c, x, true, log);
    var r := Receive(me, c, x, true);
    SaveKeepsClient(e0, me, r, log);
    PumpShape(me, c, x);
    hide Receive, Save;
    AckedKeepsClient(e0, me, Save(r), log);
  }

  lemma AckedKeepsClient(e0: nat, me: MemberId, c: Client, log: seq<Content>)
    requires ClientInv(e0, me, c, log)
    ensures ClientInv(e0, me, FinishAck(c, false), log)
  {
  }

  lemma PumpShape(me: MemberId, c: Client, x: Stored)
    requires c.phase == Ready
    ensures
      var c' := Pump(me, c, x);
      c.seen <= c'.seen && (c'.phase == Ready || c'.phase == Stopped) && c'.call == c.call
  {
  }

  /** Where one push leaves a member that has merged `h` commits. */
  lemma PumpStep(e0: nat, me: MemberId, c: Client, x: Stored, log: seq<Content>)
    requires LogOk(e0, log) && ClientInv(e0, me, c, log) && c.phase == Ready
    requires Drainable(e0, me, c.seen, log, [x]) && Advance1(e0, |c.session.commits|, x).Some?
    ensures
      var c', h := Pump(me, c, x), |c.session.commits|;
      if Position(e0, x) == Some(h) && OwnCommit(x.envelope.content, me)
      then c'.phase == Stopped && |c'.session.commits| == h
      else c'.phase == Ready && |c'.session.commits| == Advance1(e0, h, x).value
  {
    assert x in [x];
    if x.messageId in c.seen {
      SeenIsPassed(e0, c.seen, |c.session.commits|, x, log);
    }
  }

  /**
   * A push stops the engine exactly if it is new and neither another member's commit for the session's
   * epoch nor another member's message that decrypts; then nothing is applied, shown, saved or acked.
   */
  lemma StopsExactly(me: MemberId, c: Client, x: Stored, decrypts: bool)
    requires c.phase == Ready
    ensures
      var d, w := Receive(me, c, x, decrypts), x.envelope.content;
      && (d.phase == Stopped <==>
            && x.messageId !in c.seen
            && !(w.Commit? && w.author != me && w.epoch == c.session.epoch)
            && !(w.Application? && w.author != me && decrypts))
      && (d.phase == Stopped ==> d == c.(phase := Stopped, seen := c.seen + {x.messageId}))
      && (x.messageId in c.seen ==> d == c.(phase := Acking(x.messageId)))
  {
  }

  lemma PumpStopped(me: MemberId, c: Client, x: Stored)
    requires c.phase != Ready
    ensures Pump(me, c, x) == c
  {
  }

  /** Every push a drain gets through without stopping, duplicate or not, is on disk and acked. */
  lemma {:induction false} DrainAcksAll(me: MemberId, c: Client, xs: seq<Stored>)
    requires c.phase == Ready && c.seen == c.disk.seen && PumpAll(me, c, xs).phase == Ready
    ensures
      var d := PumpAll(me, c, xs);
      && d.seen == d.disk.seen && c.seen <= d.seen && c.acks <= d.acks
      && forall x :: x in xs ==> x.messageId in d.acks && x.messageId in d.disk.seen
  {
    if xs != [] {
      var init, x := xs[..|xs| - 1], xs[|xs| - 1];
      assert xs == init + [x];
      var d := PumpAll(me, c, init);
      PumpAcks(me, d, x);
      DrainAcksAll(me, c, init);
      hide Pump;
    }
  }

  lemma PumpAcks(me: MemberId, c: Client, x: Stored)
    requires Pump(me, c, x).phase == Ready
    ensures c.phase == Ready
    ensures c.seen == c.disk.seen ==>
      var d := Pump(me, c, x);
      && d.seen == d.disk.seen && c.seen <= d.seen && c.acks <= d.acks
      && x.messageId in d.acks && x.messageId in d.disk.seen
  {
  }

  /** Draining mail that leads to `h` stops at the member's own unmerged commit, or arrives at `h`. */
  lemma {:induction false} DrainStopsAtOwn(e0: nat, me: MemberId, c: Client, xs: seq<Stored>, log: seq<Content>, h: nat)
    requires LogOk(e0, log) && ClientInv(e0, me, c, log)
    requires c.phase == Ready && (c.call.NoCall? || c.call.Draining?)
    requires Drainable(e0, me, c.seen, log, xs) && Scan(e0, xs, |c.session.commits|) == Some(h) && h <= |log|
    ensures
      var c', f := PumpAll(me, c, xs), FirstOwn(log, |c.session.commits|, me);
      && ClientInv(e0, me, c', log) && c.seen <= c'.seen && c'.call == c.call
      && (if h <= f then c'.phase == Ready && |c'.session.commits| == h
          else c'.phase == Stopped && |c'.session.commits| == f)
  {
    hide ClientInv, Pump, SessionOk;
    var n := |c.session.commits|;
    ScanGrows(e0, xs, n);
    FirstOwnIsFirst(log, n, me);
    if xs != [] {
      var init, x := xs[..|xs| - 1], xs[|xs| - 1];
      assert x in xs && forall y :: y in init ==> y in xs;
      var h0 := Scan(e0, init, n).value;
      assert Honest(e0, log, x);
      ScanGrows(e0, init, n);
      DrainStopsAtOwn(e0, me, c, init, log, h0);
      var d := PumpAll(me, c, init);
      if d.phase == Ready {
        PumpKeeps(e0, me, d, x, log);
        PumpStep(e0, me, d, x, log);
        assert Position(e0, x) == Some(h0) ==> x.envelope.content == log[h0];
      } else {
        PumpStopped(me, d, x);
      }
    }
  }

  /** `k` rounds of taking a push, saving and acking. */
  function Rounds(m: MemberId, k: nat): seq<Action> {
    if k == 0 then [] else Rounds(m, k - 1) + [By(m, GetPush(true)), By(m, Persist), By(m, EndAck(false))]
  }

  lemma {:induction false} ExecAppend(g: Config, s: Sys, a: seq<Action>, b: seq<Action>)
    ensures Exec(g, s, a + b) == Exec(g, Exec(g, s, a), b)
  {
    if b == [] {
      assert a + b == a;
    } else {
      assert (a + b)[..|a + b| - 1] == a + b[..|b| - 1];
      ExecAppend(g, s, a, b[..|b| - 1]);
    }
  }

  lemma ExecSnoc(g: Config, s: Sys, actions: seq<Action>, a: Action)
    ensures Exec(g, s, actions + [a]) == Act(g, Exec(g, s, actions), a)
  {
    assert (actions + [a])[..|actions|] == actions;
  }

  lemma ExecThree(g: Config, s: Sys, a: Action, b: Action, c: Action)
    ensures Exec(g, s, [a, b, c]) == Act(g, Act(g, Act(g, s, a), b), c)
  {
    hide Act;
    assert [a, b, c][..2] == [a, b] && [a, b][..1] == [a] && [a][..0] == [];
    assert Exec(g, s, [a]) == Act(g, s, a);
    assert Exec(g, s, [a, b]) == Act(g, Act(g, s, a), b);
  }

  /** One round of the engine's own actions pumps one push. */
  lemma RoundPumps(g: Config, s: Sys, m: MemberId)
    requires m in s.members && m in g.mailbox && Unread(g, s, m) != []
    requires s.members[m].client.phase == Ready
    requires s.members[m].client.call.NoCall? || s.members[m].client.call.Draining?
    ensures
      var t := Act(g, Act(g, Act(g, s, By(m, GetPush(true))), By(m, Persist)), By(m, EndAck(false)));
      && t.relay == s.relay && t.log == s.log && t.members.Keys == s.members.Keys
      && t.members[m].chan == s.members[m].chan && t.members[m].read == s.members[m].read + 1
      && t.members[m].client == Pump(m, s.members[m].client, Unread(g, s, m)[0])
  {
    hide Delivered, FreshChan, Listening;
    var t1 := Act(g, s, By(m, GetPush(true)));
    assert t1.members[m].client == Receive(m, s.members[m].client, Unread(g, s, m)[0], true);
    var t2 := Act(g, t1, By(m, Persist));
    assert t2.members[m].client == Save(t1.members[m].client);
  }

  /** Having read `j` more pushes of the same connection. */
  lemma UnreadAfter(g: Config, s: Sys, u: Sys, m: MemberId, j: nat)
    requires m in s.members && m in u.members && m in g.mailbox && u.relay == s.relay
    requires s.members[m].chan.Some? && u.members[m].chan == s.members[m].chan
    requires s.members[m].read <= |Delivered(s.relay, s.members[m].chan.value, g.mailbox[m])|
    requires u.members[m].read == s.members[m].read + j && j < |Unread(g, s, m)|
    ensures Unread(g, u, m) != [] && Unread(g, u, m)[0] == Unread(g, s, m)[j]
  {
    hide Delivered;
  }

  /** The rounds of the engine read the connection in order and touch nothing else. */
  lemma {:induction false} RoundsPumpAll(g: Config, s: Sys, m: MemberId, k: nat)
    requires m in s.members && m in g.mailbox && s.members[m].chan.Some? && k <= |Unread(g, s, m)|
    requires s.members[m].client.phase == Ready
    requires s.members[m].read <= |Delivered(s.relay, s.members[m].chan.value, g.mailbox[m])|
    requires s.members[m].client.call.NoCall? || s.members[m].client.call.Draining?
    ensures
      var t := Exec(g, s, Rounds(m, k));
      && t.relay == s.relay && t.log == s.log && m in t.members && t.members[m].chan == s.members[m].chan
      && t.members[m].client == PumpAll(m, s.members[m].client, Unread(g, s, m)[..k])
      && t.members[m].client.call == s.members[m].client.call
      && (t.members[m].client.phase == Ready ==> t.members[m].read == s.members[m].read + k)
      && (t.members[m].client.phase == Ready || t.members[m].client.phase == Stopped)
  {
    hide Delivered, Act, Receive, Save, FinishAck;
    if k > 0 {
      var unread := Unread(g, s, m);
      RoundsPumpAll(g, s, m, k - 1);
      var u := Exec(g, s, Rounds(m, k - 1));
      var a, b, c := By(m, GetPush(true)), By(m, Persist), By(m, EndAck(false));
      ExecAppend(g, s, Rounds(m, k - 1), [a, b, c]);
      ExecThree(g, u, a, b, c);
      assert unread[..k][..k - 1] == unread[..k - 1];
      if u.members[m].client.phase == Ready {
        UnreadAfter(g, s, u, m, k - 1);
        RoundPumps(g, u, m);
        PumpShape(m, u.members[m].client, unread[k - 1]);
      } else {
        StoppedStays(g, u, m);
        PumpStopped(m, u.members[m].client, unread[k - 1]);
      }
    }
  }

  lemma StoppedStays(g: Config, s: Sys, m: MemberId)
    requires m in s.members && s.members[m].client.phase == Stopped
    ensures Act(g, Act(g, Act(g, s, By(m, GetPush(true))), By(m, Persist)), By(m, EndAck(false))) == s
  {
  }

  /** A member waiting for the winner of a lost race, on a live connection with only the group's mail. */
  ghost predicate CanDrainLive(g: Config, s: Sys, m: MemberId) {
    && m in s.members && m in g.mailbox
    && ClientOf(s, m).phase == Ready && ClientOf(s, m).call == Draining(ClientOf(s, m).session.epoch)
    && s.members[m].chan.Some? && Listening(s.relay, s.members[m].chan.value, g.mailbox[m])
    && forall x :: x in Unread(g, s, m) ==> !x.envelope.content.Foreign?
  }

  /**
   * The drain after a lost race ends: in every reachable state, by the time the pushes waiting on its
   * connection are read the member has passed the contested epoch, if and only if the winner is
   * another member's commit.
   */
  lemma DrainFindsWinner(g: Config, s0: Sys, actions: seq<Action>, m: MemberId)
    requires Init(g, s0) && CanDrainLive(g, Exec(g, s0, actions), m)
    ensures
      var s := Exec(g, s0, actions);
      var c := ClientOf(s, m);
      var n := |c.session.commits|;
      var t := Exec(g, s, Rounds(m, |Unread(g, s, m)|));
      && n < |s.log| && s.log[n].Commit? && s.log[n].epoch == c.call.stale
      && m in t.members && t.log == s.log
      && (ClientOf(t, m).session.epoch > c.call.stale <==> !OwnCommit(s.log[n], m))
  {
    ConflictHasWinner(g, s0, actions, m);
    Reached(g, s0, actions, m);
    hide Exec, MemberInv, SysInv;
    LiveDrain(g, Exec(g, s0, actions), m);
  }

  lemma LiveDrain(g: Config, s: Sys, m: MemberId)
    requires SysInv(g, s) && CanDrainLive(g, s, m) && |ClientOf(s, m).session.commits| < |s.log|
    ensures
      var c := ClientOf(s, m);
      var n := |c.session.commits|;
      var t := Exec(g, s, Rounds(m, |Unread(g, s, m)|));
      && m in t.members && t.log == s.log
      && (ClientOf(t, m).session.epoch > c.session.epoch <==> !OwnCommit(s.log[n], m))
  {
    hide MemberInv, Act, Delivered, RelayOk, LandedInv, Listening, Scan, PumpAll, Rounds, Exec, ClientInv, Drainable;
    var mb, unread, c := s.members[m], Unread(g, s, m), ClientOf(s, m);
    assert MemberOk(g, s.relay, s.log, m, mb);
    MailIsDrainable(g.epoch0, m, mb, ViewOf(g, s.relay, m, mb), s.log);
    RoundsPumpAll(g, s, m, |unread|);
    assert unread[..|unread|] == unread;
    DrainStopsAtOwn(g.epoch0, m, c, unread, s.log, |s.log|);
    FirstOwnIsFirst(s.log, |c.session.commits|, m);
    SessionEpoch(g.epoch0, m, c, s.log);
    SessionEpoch(g.epoch0, m, PumpAll(m, c, unread), s.log);
  }

  /** The member reconnects and reads its whole backlog. */
  function ReconnectAndDrain(m: MemberId, chan: Chan, k: nat): seq<Action> {
    [By(m, Connect(chan))] + Rounds(m, k)
  }

  /** A member between calls, or draining after a conflict, whose mail is all the group's. */
  ghost predicate CanDrain(g: Config, s: Sys, m: MemberId, chan: Chan) {
    && m in s.members && m in g.mailbox && FreshChan(s.relay, chan)
    && ClientOf(s, m).phase == Ready && (ClientOf(s, m).call.NoCall? || ClientOf(s, m).call.Draining?)
    && forall x :: x in Pending(s.relay, g.mailbox[m]) ==> !x.envelope.content.Foreign?
  }

  /** Reconnecting leaves the client as it was, with its whole backlog unread. */
  lemma ConnectedForDrain(g: Config, s: Sys, m: MemberId, chan: Chan)
    requires SysInv(g, s) && CanDrain(g, s, m, chan)
    ensures
      var t := Act(g, s, By(m, Connect(chan)));
      && m in t.members && t.log == s.log && t.members[m].client == s.members[m].client
      && t.members[m].chan == Some(chan) && t.members[m].read == 0
      && Delivered(t.relay, chan, g.mailbox[m]) == Pending(s.relay, g.mailbox[m])
      && Unread(g, t, m) == Pending(s.relay, g.mailbox[m])
  {
    hide MembersOk, LandedInv, InboxOk, Mirrors, Delivered;
    ConnectView(g, s, m, chan);
    var pending := Pending(s.relay, g.mailbox[m]);
    assert pending[0..] == pending;
  }

  /**
   * In every reachable state, reconnecting and draining takes a member to its first own unmerged
   * commit, and to the relay's epoch if and only if there is none.
   */
  lemma DrainReachesHead(g: Config, s0: Sys, actions: seq<Action>, m: MemberId, chan: Chan)
    requires Init(g, s0) && CanDrain(g, Exec(g, s0, actions), m, chan)
    ensures
      var s := Exec(g, s0, actions);
      var n := |ClientOf(s, m).session.commits|;
      var t := Exec(g, s, ReconnectAndDrain(m, chan, |Pending(s.relay, g.mailbox[m])|));
      && m in t.members && t.log == s.log && n <= |s.log|
      && ClientOf(t, m).session.epoch == g.epoch0 + FirstOwn(s.log, n, m)
      && (ClientOf(t, m).session.epoch == g.epoch0 + |s.log| <==>
          forall i :: n <= i < |s.log| ==> !OwnCommit(s.log[i], m))
  {
    var s := Exec(g, s0, actions);
    Reached(g, s0, actions, m);
    DrainFrom(g, s, m, chan);
  }

  lemma DrainFrom(g: Config, s: Sys, m: MemberId, chan: Chan)
    requires SysInv(g, s) && CanDrain(g, s, m, chan)
    ensures
      var n := |ClientOf(s, m).session.commits|;
      var t := Exec(g, s, ReconnectAndDrain(m, chan, |Pending(s.relay, g.mailbox[m])|));
      && m in t.members && t.log == s.log && n <= |s.log|
      && ClientOf(t, m).session.epoch == g.epoch0 + FirstOwn(s.log, n, m)
      && (ClientOf(t, m).session.epoch == g.epoch0 + |s.log| <==>
          forall i :: n <= i < |s.log| ==> !OwnCommit(s.log[i], m))
  {
    hide MemberInv, Act, Delivered, FreshChan, RelayOk, LandedInv;
    var backlog, c := Pending(s.relay, g.mailbox[m]), ClientOf(s, m);
    var u := Act(g, s, By(m, Connect(chan)));
    var k := |backlog|;
    ConnectedForDrain(g, s, m, chan);
    ExecAppend(g, s, [By(m, Connect(chan))], Rounds(m, k));
    assert [By(m, Connect(chan))][..0] == [];
    assert Exec(g, s, [By(m, Connect(chan))]) == u;
    RoundsPumpAll(g, u, m, k);
    assert backlog[..k] == backlog;
    var mb := s.members[m];
    assert MemberOk(g, s.relay, s.log, m, mb);
    MailIsDrainable(g.epoch0, m, mb, ViewOf(g, s.relay, m, mb), s.log);
    DrainStopsAtOwn(g.epoch0, m, c, backlog, s.log, |s.log|);
    FirstOwnIsFirst(s.log, |c.session.commits|, m);
    SessionEpoch(g.epoch0, m, PumpAll(m, c, backlog), s.log);
  }

  lemma SessionEpoch(e0: nat, me: MemberId, c: Client, log: seq<Content>)
    requires ClientInv(e0, me, c, log)
    ensures c.session.epoch == e0 + |c.session.commits| && |c.session.commits| <= |log|
  {
  }

  lemma MailIsDrainable(e0: nat, me: MemberId, mb: Member, v: View, log: seq<Content>)
    requires MemberInv(e0, me, mb, v, log) && mb.client.phase == Ready
    ensures ClientInv(e0, me, mb.client, log) && |mb.client.session.commits| <= |log| && mb.read <= |v.delivered|
    ensures (forall x :: x in v.pending ==> !x.envelope.content.Foreign?) ==>
      Drainable(e0, me, mb.client.seen, log, v.pending)
    ensures (forall x :: x in v.delivered[mb.read..] ==> !x.envelope.content.Foreign?) ==>
      Drainable(e0, me, mb.client.seen, log, v.delivered[mb.read..])
    ensures Scan(e0, v.pending, |mb.client.session.commits|) == Some(|log|)
    ensures mb.chan.Some? && v.listening ==>
      Scan(e0, v.delivered[mb.read..], |mb.client.session.commits|) == Some(|log|)
  {
    assert forall x :: x in v.delivered[mb.read..] ==> x in v.delivered;
  }
}
