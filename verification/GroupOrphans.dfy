/** When a member is left behind, and for how long: exactly when its own accepted commit got lost on it. */
module GroupOrphans {
  import opened Wire
  import opened Relay
  import opened RelayEffects
  import opened RelayDb
  import opened Engine
  import opened Group
  import opened GroupInv
  import opened GroupProof
  import opened GroupTheorems
  import opened Surfacing

  /**
   * The move does not separate an accepted commit from its sender: a commit arrives only while its
   * sender waits for it, and an acceptance is neither lost with its connection nor with the
   * process before it is on disk.
   */
  predicate CarefulMove(c: Client, move: Move) {
    match move
    case CommitArrives(w, _, _) => c.call == Awaiting(w)
    case Connect(_) => !(c.call.Replied? && c.call.reply == Accepted)
    case LoseReply => !(c.call.Replied? && c.call.reply == Accepted)
    case CrashAndResume =>
      !(c.call.Replied? && c.call.reply == Accepted) && !(c.phase.Unsaved? && c.phase.next.ReturnIt?)
    case _ => true
  }

  predicate CarefulAction(s: Sys, a: Action) {
    a.By? && a.m in s.members ==> CarefulMove(s.members[a.m].client, a.move)
  }

  ghost predicate CarefulRun(g: Config, s: Sys, actions: seq<Action>) {
    actions == [] ||
    (CarefulRun(g, s, actions[..|actions| - 1]) &&
     CarefulAction(Exec(g, s, actions[..|actions| - 1]), actions[|actions| - 1]))
  }

  /** An own commit the disk has not merged is one whose acceptance is just being taken in. */
  ghost predicate Settled(m: MemberId, c: Client, log: seq<Content>) {
    forall i :: |c.disk.session.commits| <= i < |log| && OwnCommit(log[i], m) ==>
      || (c.call == Replied(log[i], Accepted) && i == |c.session.commits|)
      || (c.phase.Unsaved? && c.phase.next == ReturnIt(log[i]) && i + 1 == |c.session.commits|)
  }

  ghost predicate AllSettled(s: Sys) {
    forall m :: m in s.members ==> Settled(m, s.members[m].client, s.log)
  }

  lemma LocalMoveSettles(g: Config, s: Sys, m: MemberId, move: Move)
    requires m in s.members && MemberOk(g, s.relay, s.log, m, s.members[m]) && m in g.mailbox
    requires CanMove(g, s, m, move) && (IsQuiet(move) || move.Persist?)
    requires CarefulMove(s.members[m].client, move) && Settled(m, s.members[m].client, s.log)
    ensures
      var t := Moved(g, s, m, move);
      m in t.members && Settled(m, t.members[m].client, s.log)
  {
    hide ViewOf, MailInv, RetryInv, SurfaceInv, EchoInv, Unread, Delivered;
    var c := s.members[m].client;
    assert ClientInv(g.epoch0, m, c, s.log);
  }

  /** A request leaves every client as it was. */
  lemma HandleSettles(g: Config, s: Sys, op: Op, now: int)
    requires AllSettled(s)
    ensures AllSettled(Handle(g, s, op, now))
  {
    hide Do, DbDo, Settled;
    var t := Handle(g, s, op, now);
    forall m | m in t.members
      ensures Settled(m, t.members[m].client, t.log)
    {
      assert t.members[m].client == s.members[m].client;
    }
  }

  lemma ConnectSettles(g: Config, s: Sys, m: MemberId, chan: Chan)
    requires AllSettled(s) && m in s.members && m in g.mailbox
    requires CarefulMove(s.members[m].client, Connect(chan))
    ensures AllSettled(Reconnect(g, s, m, chan))
  {
    hide Do, DbDo;
    var t := Reconnect(g, s, m, chan);
    forall k | k in t.members
      ensures Settled(k, t.members[k].client, t.log)
    {
      assert Settled(k, s.members[k].client, s.log);
    }
  }

  /** An accepted commit finds its sender waiting for it. */
  lemma SenderWaits(g: Config, s: Sys, m: MemberId, w: Content)
    requires m in s.members && MemberOk(g, s.relay, s.log, m, s.members[m])
    requires w in s.members[m].client.commitsOut && s.members[m].client.call == Awaiting(w)
    ensures OwnCommit(w, m) && w.epoch == g.epoch0 + |s.members[m].client.session.commits|
    ensures !s.members[m].client.phase.Unsaved?
  {
  }

  lemma CommitSettles(g: Config, s: Sys, m: MemberId, w: Content, size: nat, now: int)
    requires SysInv(g, s) && AllSettled(s) && m in s.members && m in g.mailbox
    requires CanMove(g, s, m, CommitArrives(w, size, now)) && s.members[m].client.call == Awaiting(w)
    ensures AllSettled(DecideCommit(g, s, m, w, size, now))
  {
    hide Do, DbDo, MemberOk, RelayOk, LandedInv;
    var t := DecideCommit(g, s, m, w, size, now);
    SenderWaits(g, s, m, w);
    if Do(s.relay, CommitOp(g, w, size), now).1 == Accepted {
      CommitReachesMember(g, s, w, size, now, m);
    }
    forall k | k in t.members
      ensures Settled(k, t.members[k].client, t.log)
    {
      assert Settled(k, s.members[k].client, s.log);
    }
  }

  lemma ActionSettles(g: Config, s: Sys, a: Action)
    requires SysInv(g, s) && AllSettled(s) && CarefulAction(s, a)
    ensures AllSettled(Act(g, s, a))
  {
    hide Do, DbDo, MemberOk, RelayOk, LandedInv, OpenDb;
    match a
    case RelayRestarts(now) =>
    case Outside(op, now) => HandleSettles(g, s, op, now);
    case By(m, move) =>
      if m in s.members && m in g.mailbox && CanMove(g, s, m, move) {
        match move
        case Connect(chan) => ConnectSettles(g, s, m, chan);
        case AckArrives(id, now) => HandleSettles(g, s, OpAck(g.mailbox[m], id), now);
        case MessageArrives(w, size, now) => HandleSettles(g, s, MessageOp(g, w, size), now);
        case CommitArrives(w, size, now) => CommitSettles(g, s, m, w, size, now);
        case _ => MemberMoveSettles(g, s, m, move);
      }
  }

  lemma MemberMoveSettles(g: Config, s: Sys, m: MemberId, move: Move)
    requires SysInv(g, s) && AllSettled(s) && m in s.members && m in g.mailbox
    requires CanMove(g, s, m, move) && (IsQuiet(move) || move.Persist?)
    requires CarefulMove(s.members[m].client, move)
    ensures AllSettled(Moved(g, s, m, move))
  {
    hide MemberOk, RelayOk, LandedInv, Settled, CanMove, CarefulMove;
    LocalMoveSettles(g, s, m, move);
    var t := Moved(g, s, m, move);
    forall k | k in t.members
      ensures Settled(k, t.members[k].client, t.log)
    {
      assert k != m ==> t.members[k] == s.members[k];
    }
  }

  lemma {:induction false} CarefulRunSettles(g: Config, s: Sys, actions: seq<Action>)
    requires Init(g, s) && CarefulRun(g, s, actions)
    ensures AllSettled(Exec(g, s, actions))
  {
    if actions != [] {
      var init := actions[..|actions| - 1];
      CarefulRunSettles(g, s, init);
      RunKeeps(g, s, init);
      ActionSettles(g, Exec(g, s, init), actions[|actions| - 1]);
    }
  }

  /**
   * As long as no acceptance is lost between the relay and its sender's disk, a member that
   * reconnects and drains always reaches the relay's epoch.
   */
  lemma CarefulRunsConverge(g: Config, s0: Sys, actions: seq<Action>, m: MemberId, chan: Chan)
    requires Init(g, s0) && CarefulRun(g, s0, actions)
    requires CanDrain(g, Exec(g, s0, actions), m, chan)
    ensures
      var s := Exec(g, s0, actions);
      var t := Exec(g, s, ReconnectAndDrain(m, chan, |Pending(s.relay, g.mailbox[m])|));
      m in t.members && ClientOf(t, m).session.epoch == g.epoch0 + |s.log|
  {
    var s := Exec(g, s0, actions);
    CarefulRunSettles(g, s0, actions);
    DrainReachesHead(g, s0, actions, m, chan);
    Reached(g, s0, actions, m);
    assert Settled(m, s.members[m].client, s.log);
    ReadyOnDisk(g, s, m);
  }

  lemma ReadyOnDisk(g: Config, s: Sys, m: MemberId)
    requires m in s.members && MemberOk(g, s.relay, s.log, m, s.members[m])
    requires s.members[m].client.phase == Ready
    ensures s.members[m].client.session.commits == s.members[m].client.disk.session.commits
  {
  }

  /** Without a lost acceptance, a call never loses a round but to another member's accepted commit. */
  lemma CarefulRetryBound(g: Config, s0: Sys, actions: seq<Action>, m: MemberId)
    requires Init(g, s0) && CarefulRun(g, s0, actions) && m in Exec(g, s0, actions).members
    requires ClientOf(Exec(g, s0, actions), m).call != NoCall
    ensures
      var s := Exec(g, s0, actions);
      s.members[m].conflicts <= ByOthers(s.log, s.members[m].start, m)
  {
    hide Exec, MemberInv, SysInv, Settled, AgainstItself;
    var s := Exec(g, s0, actions);
    CarefulRunSettles(g, s0, actions);
    RetryBound(g, s0, actions, m);
    Reached(g, s0, actions, m);
    NotAgainstItself(g.epoch0, m, s.members[m], ViewOf(g, s.relay, m, s.members[m]), s.log);
  }

  lemma NotAgainstItself(e0: nat, me: MemberId, mb: Member, v: View, log: seq<Content>)
    requires MemberInv(e0, me, mb, v, log) && Settled(me, mb.client, log)
    ensures !AgainstItself(mb.client, log, me)
  {
    hide MailInv, SurfaceInv, RetryInv, EchoInv;
    assert ClientInv(e0, me, mb.client, log);
  }

  // ---- an orphaned commit --------------------------------------------------------------------

  /**
   * Position `p` of the log is the member's own commit, which neither its memory nor its disk has
   * merged and whose acceptance it does not hold.
   */
  predicate Orphaned(m: MemberId, c: Client, log: seq<Content>, p: nat) {
    && p < |log| && OwnCommit(log[p], m)
    && |c.session.commits| <= p && |c.disk.session.commits| <= p
    && !(c.call.Replied? && c.call.reply == Accepted && |c.session.commits| == p)
  }

  /** MLS refuses one's own commit, so reading mail does not get past it. */
  lemma ReceiveKeepsOrphan(e0: nat, me: MemberId, c: Client, x: Stored, decrypts: bool, log: seq<Content>, p: nat)
    requires ClientInv(e0, me, c, log) && Honest(e0, log, x) && Orphaned(me, c, log, p)
    requires c.phase == Ready && (c.call.NoCall? || c.call.Draining?)
    ensures Orphaned(me, Receive(me, c, x, decrypts), log, p)
  {
  }

  lemma LocalMoveKeepsOrphan(g: Config, s: Sys, m: MemberId, move: Move, p: nat)
    requires m in s.members && m in g.mailbox && MemberOk(g, s.relay, s.log, m, s.members[m])
    requires CanMove(g, s, m, move) && (IsQuiet(move) || move.Persist?)
    requires Orphaned(m, s.members[m].client, s.log, p)
    ensures
      var t := Moved(g, s, m, move);
      m in t.members && Orphaned(m, t.members[m].client, s.log, p)
  {
    hide MemberInv, CanMove, Orphaned;
    if move.GetPush? {
      PushKeepsOrphan(g, s, m, move.decrypts, p);
    } else {
      QuietKeepsOrphan(g, s, m, move, p);
    }
  }

  lemma PushKeepsOrphan(g: Config, s: Sys, m: MemberId, decrypts: bool, p: nat)
    requires m in s.members && m in g.mailbox && MemberOk(g, s.relay, s.log, m, s.members[m])
    requires CanMove(g, s, m, GetPush(decrypts)) && Orphaned(m, s.members[m].client, s.log, p)
    ensures Orphaned(m, Moved(g, s, m, GetPush(decrypts)).members[m].client, s.log, p)
  {
    hide RetryInv, SurfaceInv, EchoInv, Delivered, Listening, Receive, ClientInv, Leads, Recorded, Orphaned;
    var mb := s.members[m];
    var v := ViewOf(g, s.relay, m, mb);
    assert v.delivered[mb.read] in v.delivered;
    ReceiveKeepsOrphan(g.epoch0, m, mb.client, v.delivered[mb.read], decrypts, s.log, p);
  }

  lemma QuietKeepsOrphan(g: Config, s: Sys, m: MemberId, move: Move, p: nat)
    requires m in s.members && m in g.mailbox && MemberOk(g, s.relay, s.log, m, s.members[m])
    requires CanMove(g, s, m, move) && (IsQuiet(move) || move.Persist?) && !move.GetPush?
    requires Orphaned(m, s.members[m].client, s.log, p)
    ensures
      var t := Moved(g, s, m, move);
      m in t.members && Orphaned(m, t.members[m].client, s.log, p)
  {
    hide RetryInv, SurfaceInv, EchoInv, MailInv, ViewOf, Unread, SeenOk, Unmet, InLog, FreshChan, IsMailbox;
    assert ClientInv(g.epoch0, m, s.members[m].client, s.log);
  }

  /** The relay has moved past the orphan's epoch, so no reply to come can be an acceptance. */
  lemma CommitKeepsOrphan(g: Config, s: Sys, k: MemberId, w: Content, size: nat, now: int, m: MemberId, p: nat)
    requires SysInv(g, s) && k in s.members && w.Commit? && m in s.members
    requires Orphaned(m, s.members[m].client, s.log, p)
    ensures
      var t := DecideCommit(g, s, k, w, size, now);
      m in t.members && Orphaned(m, t.members[m].client, t.log, p)
  {
    hide Do, DbDo, RelayOk, LandedInv, MemberInv;
    assert MemberOk(g, s.relay, s.log, m, s.members[m]);
    if Do(s.relay, CommitOp(g, w, size), now).1 == Accepted {
      assert InboxOk(g, s.relay, |s.log|) by { ReadInbox(g, s); }
      AcceptedAtHead(g, s.relay, w, size, now, |s.log|);
    }
    AwaitsOwnEpoch(g.epoch0, m, s.members[m], ViewOf(g, s.relay, m, s.members[m]), s.log);
  }

  lemma ReadInbox(g: Config, s: Sys)
    requires SysInv(g, s)
    ensures InboxOk(g, s.relay, |s.log|)
  {
    hide MembersOk, LandedInv;
  }

  lemma AwaitsOwnEpoch(e0: nat, me: MemberId, mb: Member, v: View, log: seq<Content>)
    requires MemberInv(e0, me, mb, v, log)
    ensures mb.client.call.Awaiting? ==>
      mb.client.call.commit.Commit? && mb.client.call.commit.epoch == e0 + |mb.client.session.commits|
  {
  }

  lemma ActionKeepsOrphan(g: Config, s: Sys, a: Action, m: MemberId, p: nat)
    requires SysInv(g, s) && m in s.members && Orphaned(m, s.members[m].client, s.log, p)
    ensures
      var t := Act(g, s, a);
      m in t.members && Orphaned(m, t.members[m].client, t.log, p)
  {
    hide Do, DbDo, MemberOk, RelayOk, LandedInv, OpenDb;
    match a
    case RelayRestarts(now) =>
    case Outside(op, now) =>
    case By(k, move) =>
      if k in s.members && k in g.mailbox && CanMove(g, s, k, move) {
        if move.CommitArrives? {
          CommitKeepsOrphan(g, s, k, move.w, move.size, move.now, m, p);
        } else if IsQuiet(move) || move.Persist? {
          hide CanMove;
          if k == m {
            LocalMoveKeepsOrphan(g, s, m, move, p);
          } else {
            assert Moved(g, s, k, move).members[m] == s.members[m];
          }
        }
      }
  }

  /**
   * An orphaned commit is forever: whatever happens from then on, resumes, reconnects and drains
   * included, its author never gets past the epoch it was for, and the relay is already beyond it.
   */
  lemma {:induction false} OrphanIsForever(
    g: Config, s0: Sys, actions: seq<Action>, more: seq<Action>, m: MemberId, p: nat)
    requires Init(g, s0) && m in Exec(g, s0, actions).members
    requires Orphaned(m, ClientOf(Exec(g, s0, actions), m), Exec(g, s0, actions).log, p)
    ensures
      var t := Exec(g, Exec(g, s0, actions), more);
      && m in t.members && Orphaned(m, ClientOf(t, m), t.log, p)
      && ClientOf(t, m).session.epoch <= g.epoch0 + p
      && g.inbox in t.relay.queues && t.relay.queues[g.inbox].kind == GroupInbox(g.epoch0 + |t.log|, g.roster)
  {
    hide Act, SysInv;
    var s := Exec(g, s0, actions);
    if more != [] {
      var init := more[..|more| - 1];
      OrphanIsForever(g, s0, actions, init, m, p);
      ExecAppend(g, s0, actions, init);
      RunKeeps(g, s0, actions + init);
      ActionKeepsOrphan(g, Exec(g, s, init), more[|more| - 1], m, p);
    }
    ExecAppend(g, s0, actions, more);
    CommitLogAgreement(g, s0, actions + more, m, m);
  }

  // ---- how one comes about -------------------------------------------------------------------

  /** The relay's acceptance of `w` has reached its sender but not its sender's disk. */
  predicate AcceptanceInHand(c: Client, w: Content) {
    c.call == Replied(w, Accepted) || (c.phase.Unsaved? && c.phase.next == ReturnIt(w))
  }

  /** The member loses what it holds: its process dies, or its connection does before it has the reply. */
  predicate Loses(c: Client, move: Move) {
    move.CrashAndResume? || ((move.Connect? || move.LoseReply?) && c.call.Replied?)
  }

  /** Either way memory and disk both stay short of the accepted commit. */
  lemma LossOrphansClient(e0: nat, me: MemberId, c: Client, w: Content, log: seq<Content>)
    requires ClientInv(e0, me, c, log) && AcceptanceInHand(c, w)
    ensures w.Commit? && w.epoch >= e0
    ensures Orphaned(me, Resume(c), log, w.epoch - e0)
    ensures c.call.Replied? ==> Orphaned(me, ForgetReply(c), log, w.epoch - e0)
  {
  }

  lemma CrashOutcome(g: Config, s: Sys, m: MemberId)
    requires m in s.members && m in g.mailbox
    ensures CanMove(g, s, m, CrashAndResume)
    ensures
      var t := Act(g, s, By(m, CrashAndResume));
      m in t.members && t.log == s.log && t.members[m].client == Resume(s.members[m].client)
  {
  }

  lemma ReconnectOutcome(g: Config, s: Sys, m: MemberId, move: Move)
    requires m in s.members && m in g.mailbox && CanMove(g, s, m, move) && (move.Connect? || move.LoseReply?)
    ensures
      var t := Act(g, s, By(m, move));
      m in t.members && t.log == s.log && t.members[m].client == ForgetReply(s.members[m].client)
  {
    hide Do, DbDo, FreshChan;
  }

  lemma ClientHolds(g: Config, s: Sys, m: MemberId)
    requires SysInv(g, s) && m in s.members
    ensures ClientInv(g.epoch0, m, s.members[m].client, s.log)
  {
    hide ClientInv, MailInv, RetryInv, SurfaceInv, EchoInv, RelayOk, LandedInv;
    assert MemberOk(g, s.relay, s.log, m, s.members[m]);
  }

  lemma LossOrphans(g: Config, s: Sys, m: MemberId, w: Content, move: Move)
    requires SysInv(g, s) && m in s.members && AcceptanceInHand(ClientOf(s, m), w)
    requires m in g.mailbox && CanMove(g, s, m, move) && Loses(ClientOf(s, m), move)
    ensures
      var t := Act(g, s, By(m, move));
      && w.Commit? && w.epoch >= g.epoch0
      && m in t.members && Orphaned(m, ClientOf(t, m), t.log, w.epoch - g.epoch0)
  {
    hide Act, CanMove, SysInv, ClientInv, Orphaned, AcceptanceInHand;
    ClientHolds(g, s, m);
    LossOrphansClient(g.epoch0, m, ClientOf(s, m), w, s.log);
    if move.CrashAndResume? {
      CrashOutcome(g, s, m);
    } else {
      ReconnectOutcome(g, s, m, move);
    }
  }

  /**
   * The disclosed crash window, in general: in whatever run the acceptance of a commit is lost on its
   * way to its sender's disk, and whatever is done about it afterwards, the sender never again leaves
   * the epoch of that commit, and the relay has left it.
   */
  lemma LostAcceptanceStrands(
    g: Config, s0: Sys, actions: seq<Action>, m: MemberId, w: Content, move: Move, more: seq<Action>)
    requires Init(g, s0) && m in Exec(g, s0, actions).members && m in g.mailbox
    requires AcceptanceInHand(ClientOf(Exec(g, s0, actions), m), w)
    requires CanMove(g, Exec(g, s0, actions), m, move) && Loses(ClientOf(Exec(g, s0, actions), m), move)
    ensures
      var t := Exec(g, s0, actions + [By(m, move)] + more);
      && w.Commit? && m in t.members
      && ClientOf(t, m).session.epoch <= w.epoch < g.epoch0 + |t.log|
      && g.inbox in t.relay.queues && t.relay.queues[g.inbox].kind == GroupInbox(g.epoch0 + |t.log|, g.roster)
  {
    hide SysInv, CanMove, Act, Exec, Loses, AcceptanceInHand, Init;
    RunKeeps(g, s0, actions);
    var s, a := Exec(g, s0, actions), By(m, move);
    LossOrphans(g, s, m, w, move);
    ExecSnoc(g, s0, actions, a);
    OrphanIsForever(g, s0, actions + [a], more, m, w.epoch - g.epoch0);
    ExecAppend(g, s0, actions + [a], more);
  }

  /** Such a run exists from every start in which the relay takes the member's first commit. */
  lemma AcceptanceCanBeLost(g: Config, s: Sys, m: MemberId, size: nat, now: int)
    requires Init(g, s) && m in s.members
    requires Do(s.relay, CommitOp(g, Commit(m, g.epoch0, s.nonce), size), now).1 == Accepted
    ensures
      var w := Commit(m, g.epoch0, s.nonce);
      var t := Exec(g, s, [By(m, BuildCommit), By(m, CommitArrives(w, size, now))]);
      && m in t.members && m in g.mailbox && AcceptanceInHand(ClientOf(t, m), w)
      && CanMove(g, t, m, CrashAndResume) && Loses(ClientOf(t, m), CrashAndResume)
  {
    var w := Commit(m, g.epoch0, s.nonce);
    var a, b := By(m, BuildCommit), By(m, CommitArrives(w, size, now));
    FirstCommitGoesOut(g, s, m);
    hide Do, DbDo, Init, Act, CanMove;
    assert [] + [a] == [a] && [a] + [b] == [a, b];
    ExecSnoc(g, s, [], a);
    ExecSnoc(g, s, [a], b);
    AcceptanceReachesSender(g, Act(g, s, a), m, w, size, now);
    CrashOutcome(g, Exec(g, s, [a, b]), m);
  }

  lemma FirstCommitGoesOut(g: Config, s: Sys, m: MemberId)
    requires Init(g, s) && m in s.members
    ensures
      var t := Act(g, s, By(m, BuildCommit));
      && m in g.mailbox && m in t.members && t.relay == s.relay
      && t.members[m].client == BeginCommit(s.members[m].client, Commit(m, g.epoch0, s.nonce))
  {
    hide Mirrors, SubsDistinct;
  }

  lemma AcceptanceReachesSender(g: Config, s: Sys, m: MemberId, w: Content, size: nat, now: int)
    requires m in s.members && m in g.mailbox && w.Commit? && w in s.members[m].client.commitsOut
    requires s.members[m].client.call == Awaiting(w)
    requires Do(s.relay, CommitOp(g, w, size), now).1 == Accepted
    ensures
      var t := Act(g, s, By(m, CommitArrives(w, size, now)));
      m in t.members && t.members[m].client.call == Replied(w, Accepted)
  {
    hide Do, DbDo;
  }
}
