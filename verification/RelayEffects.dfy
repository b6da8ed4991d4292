/** What one relay step does to one mailbox, one channel and the byte total. */
module RelayEffects {
  import opened Base
  import opened Wire
  import opened Relay

  // ---- counting subscribers ----------------------------------------------------------------

  /** Whether a push for `q` reaches channel `c`. */
  predicate Listening(s: State, c: Chan, q: QueueId) {
    c in Subs(s, q) && c !in s.closed
  }

  /** No channel is registered twice for one queue. */
  ghost predicate SubsDistinct(s: State) {
    forall q :: q in s.subscribers ==> Distinct(s.subscribers[q])
  }

  lemma {:induction false} OpenMembers(cs: seq<Chan>, closed: set<Chan>, c: Chan)
    ensures c in Open(cs, closed) <==> c in cs && c !in closed
  {
    if cs != [] {
      assert cs == cs[..|cs| - 1] + [cs[|cs| - 1]];
      OpenMembers(cs[..|cs| - 1], closed, c);
    }
  }

  lemma {:induction false} OpenDistinct(cs: seq<Chan>, closed: set<Chan>)
    requires Distinct(cs)
    ensures Distinct(Open(cs, closed))
  {
    if cs != [] {
      var init := cs[..|cs| - 1];
      OpenDistinct(init, closed);
      OpenMembers(init, closed, cs[|cs| - 1]);
    }
  }

  lemma {:induction false} ExceptMembers(cs: seq<Chan>, c: Chan, d: Chan)
    ensures d in Except(cs, c) <==> d in cs && d != c
  {
    if cs != [] {
      assert cs == cs[..|cs| - 1] + [cs[|cs| - 1]];
      ExceptMembers(cs[..|cs| - 1], c, d);
    }
  }

  lemma {:induction false} ExceptDistinct(cs: seq<Chan>, c: Chan)
    requires Distinct(cs)
    ensures Distinct(Except(cs, c))
  {
    if cs != [] {
      var init := cs[..|cs| - 1];
      ExceptDistinct(init, c);
      ExceptMembers(init, c, cs[|cs| - 1]);
    }
  }

  // ---- what a channel has been handed ------------------------------------------------------

  /** The messages a list of pushes carries for queue `q`. */
  function Stream(ps: seq<Push>, q: QueueId): seq<Stored> {
    if ps == [] then []
    else
      var p, rest := ps[|ps| - 1], Stream(ps[..|ps| - 1], q);
      if p.queueId == q then rest + [p.stored] else rest
  }

  /** The messages channel `c` has been handed for queue `q`, in order. */
  function Delivered(s: State, c: Chan, q: QueueId): seq<Stored> {
    Stream(Sent(s, c), q)
  }

  lemma {:induction false} StreamAppend(ps: seq<Push>, more: seq<Push>, q: QueueId)
    ensures Stream(ps + more, q) == Stream(ps, q) + Stream(more, q)
  {
    if more == [] {
      assert ps + more == ps;
    } else {
      var init := more[..|more| - 1];
      assert (ps + more)[..|ps + more| - 1] == ps + init;
      StreamAppend(ps, init, q);
    }
  }

  lemma {:induction false} StreamOfPushes(r: QueueId, xs: seq<Stored>, q: QueueId)
    ensures Stream(Pushes(r, xs), q) == if r == q then xs else []
  {
    if xs != [] {
      var init := xs[..|xs| - 1];
      assert Pushes(r, xs)[..|xs| - 1] == Pushes(r, init);
      StreamOfPushes(r, init, q);
    }
  }

  lemma {:induction false} HandAllEffect(sent: map<Chan, seq<Push>>, cs: seq<Chan>, p: Push, c: Chan)
    ensures
      var after := HandAll(sent, cs, p);
      (if c in after then after[c] else []) ==
      (if c in sent then sent[c] else []) + Copies(p, Count(cs, c))
  {
    if cs != [] {
      var init := cs[..|cs| - 1];
      HandAllEffect(sent, init, p, c);
      hide Copies;
      if cs[|cs| - 1] == c {
        AppendCopy(if c in sent then sent[c] else [], p, Count(init, c));
      }
    }
  }

  lemma {:induction false} StreamOfCopies(p: Push, k: nat, q: QueueId)
    ensures Stream(Copies(p, k), q) == if p.queueId == q then Copies(p.stored, k) else []
  {
    if k > 0 {
      assert Copies(p, k)[..k - 1] == Copies(p, k - 1);
      StreamOfCopies(p, k - 1, q);
      assert Copies(p.stored, k - 1) + [p.stored] == Copies(p.stored, k);
    }
  }

  // ---- one deposit -------------------------------------------------------------------------

  /** A deposit appends to one backlog and changes no other queue and no subscription. */
  lemma DepositEffect(s: State, r: QueueId, env: Envelope, q: QueueId, c: Chan)
    requires SubsDistinct(s)
    ensures
      var t := PushAndNotify(s, r, env);
      && SubsDistinct(t)
      && t.closed == s.closed
      && t.queues.Keys == s.queues.Keys
      && (q in s.queues && (q != r || !IsMailbox(s, q)) ==> t.queues[q] == s.queues[q])
      && (IsMailbox(t, q) <==> IsMailbox(s, q))
      && Pending(t, q) == (if r == q && IsMailbox(s, q) then Pending(s, q) + [StoredOf(env)] else Pending(s, q))
      && (Listening(t, c, q) <==> Listening(s, c, q))
  {
    OpenDistinct(Subs(s, r), s.closed);
    OpenMembers(Subs(s, r), s.closed, c);
  }

  /** A deposit reaches each channel listening on that queue once, and no other channel. */
  lemma DepositDelivered(s: State, r: QueueId, env: Envelope, q: QueueId, c: Chan)
    requires SubsDistinct(s)
    ensures Delivered(PushAndNotify(s, r, env), c, q) ==
            (if r == q && Listening(s, c, q) then Delivered(s, c, q) + [StoredOf(env)] else Delivered(s, c, q))
  {
    var open := Open(Subs(s, r), s.closed);
    var p, k := Push(r, StoredOf(env)), Count(open, c);
    OpenDistinct(Subs(s, r), s.closed);
    OpenMembers(Subs(s, r), s.closed, c);
    HandAllEffect(s.sent, open, p, c);
    CountDistinct(open, c);
    StreamAppend(Sent(s, c), Copies(p, k), q);
    StreamOfCopies(p, k, q);
    AppendCopy(Delivered(s, c, q), p.stored, 0);
  }

  /** Fan-out leaves queue kinds, group inboxes and subscriptions as they were. */
  lemma {:induction false} FanOutFrame(s: State, roster: seq<QueueId>, env: Envelope, q: QueueId, c: Chan)
    requires SubsDistinct(s)
    ensures
      var t := FanOut(s, roster, env);
      && SubsDistinct(t)
      && t.closed == s.closed
      && t.queues.Keys == s.queues.Keys
      && (q in s.queues && (q !in roster || !IsMailbox(s, q)) ==> t.queues[q] == s.queues[q])
      && (IsMailbox(t, q) <==> IsMailbox(s, q))
      && (Listening(t, c, q) <==> Listening(s, c, q))
  {
    if roster != [] {
      var init, r := roster[..|roster| - 1], roster[|roster| - 1];
      assert roster == init + [r];
      FanOutFrame(s, init, env, q, c);
      DepositEffect(FanOut(s, init, env), r, env, q, c);
    }
  }

  /** Fan-out appends one copy per roster occurrence to a mailbox's backlog. */
  lemma {:induction false} FanOutPending(s: State, roster: seq<QueueId>, env: Envelope, q: QueueId)
    requires SubsDistinct(s)
    ensures Pending(FanOut(s, roster, env), q) ==
            Pending(s, q) + Copies(StoredOf(env), if IsMailbox(s, q) then Count(roster, q) else 0)
  {
    var x := StoredOf(env);
    AppendCopy(Pending(s, q), x, 0);
    if roster != [] {
      var init, r := roster[..|roster| - 1], roster[|roster| - 1];
      FanOutFrame(s, init, env, q, 0);
      FanOutPending(s, init, env, q);
      DepositEffect(FanOut(s, init, env), r, env, q, 0);
      AppendCopy(Pending(s, q), x, Count(init, q));
    }
  }

  /** Fan-out hands one copy per roster occurrence to every channel listening on the mailbox. */
  lemma {:induction false} FanOutDelivered(s: State, roster: seq<QueueId>, env: Envelope, q: QueueId, c: Chan)
    requires SubsDistinct(s)
    ensures Delivered(FanOut(s, roster, env), c, q) ==
            Delivered(s, c, q) + Copies(StoredOf(env), if Listening(s, c, q) then Count(roster, q) else 0)
  {
    var x := StoredOf(env);
    AppendCopy(Delivered(s, c, q), x, 0);
    if roster != [] {
      var init, r := roster[..|roster| - 1], roster[|roster| - 1];
      FanOutFrame(s, init, env, q, c);
      FanOutDelivered(s, init, env, q, c);
      DepositDelivered(FanOut(s, init, env), r, env, q, c);
      AppendCopy(Delivered(s, c, q), x, Count(init, q));
    }
  }

  // ---- one subscription --------------------------------------------------------------------

  lemma RegisterEffect(u: State, r: QueueId, tx: Chan, q: QueueId, c: Chan)
    requires SubsDistinct(u)
    ensures
      var t := Register(u, r, tx);
      && SubsDistinct(t)
      && t == u.(subscribers := t.subscribers)
      && (q == r ==> tx in Subs(t, q)) && (q != r ==> Subs(t, q) == Subs(u, q))
      && (q != r || c != tx ==> (Listening(t, c, q) <==> Listening(u, c, q)))
  {
    var open := Open(Subs(u, r), u.closed);
    OpenDistinct(Subs(u, r), u.closed);
    ExceptDistinct(open, tx);
    ExceptMembers(open, tx, tx);
    ExceptMembers(open, tx, c);
    OpenMembers(Subs(u, r), u.closed, c);
    hide Open, Except;
  }

  lemma {:induction false} RegisterAllEffect(s: State, qs: seq<QueueId>, tx: Chan, q: QueueId, c: Chan)
    requires SubsDistinct(s)
    ensures
      var t := RegisterAll(s, qs, tx);
      && SubsDistinct(t)
      && t == s.(subscribers := t.subscribers)
      && (q in qs ==> tx in Subs(t, q))
      && (q !in qs || c != tx ==> (Listening(t, c, q) <==> Listening(s, c, q)))
  {
    if qs != [] {
      var init, r := qs[..|qs| - 1], qs[|qs| - 1];
      assert qs == init + [r];
      RegisterAllEffect(s, init, tx, q, c);
      hide Register, SubsDistinct;
      RegisterEffect(RegisterAll(s, init, tx), r, tx, q, c);
    }
  }

  lemma {:induction false} BacklogsStream(s: State, qs: seq<QueueId>, q: QueueId)
    ensures q !in qs ==> Stream(Backlogs(s, qs), q) == []
    ensures Count(qs, q) == 1 ==> Stream(Backlogs(s, qs), q) == Pending(s, q)
  {
    if qs != [] {
      var init, r := qs[..|qs| - 1], qs[|qs| - 1];
      assert qs == init + [r];
      BacklogsStream(s, init, q);
      StreamAppend(Backlogs(s, init), Pushes(r, Pending(s, r)), q);
      StreamOfPushes(r, Pending(s, r), q);
      CountPositive(init, q);
    }
  }

  /** Subscribing registers the channel and hands it each listed backlog; other channels see nothing. */
  lemma SubscribeEffect(s: State, qs: seq<QueueId>, tx: Chan, q: QueueId, c: Chan)
    requires SubsDistinct(s)
    ensures
      var t := Subscribe(s, qs, tx);
      && SubsDistinct(t)
      && t.queues == s.queues && t.storage == s.storage && t.closed == s.closed
      && (q !in qs || c != tx ==> (Listening(t, c, q) <==> Listening(s, c, q)))
      && (q !in qs || c != tx ==> Delivered(t, c, q) == Delivered(s, c, q))
      && (Count(qs, q) == 1 && tx !in s.closed ==>
            Listening(t, tx, q) && Delivered(t, tx, q) == Delivered(s, tx, q) + Pending(s, q))
  {
    hide RegisterAll, Backlogs, Count;
    RegisterAllEffect(s, qs, tx, q, c);
    BacklogsStream(s, qs, q);
    StreamAppend(Sent(s, tx), Backlogs(s, qs), q);
    CountPositive(qs, q);
  }

  // ---- connections that have gone ----------------------------------------------------------

  lemma {:induction false} CountAbsent(cs: seq<Chan>, c: Chan)
    requires c !in cs
    ensures Count(cs, c) == 0
  {
    if cs != [] {
      assert cs == cs[..|cs| - 1] + [cs[|cs| - 1]];
      CountAbsent(cs[..|cs| - 1], c);
    }
  }

  lemma DepositSparesClosed(s: State, q: QueueId, env: Envelope, c: Chan)
    requires c in s.closed
    ensures
      var t := PushAndNotify(s, q, env);
      Sent(t, c) == Sent(s, c) && t.closed == s.closed && c !in Subs(t, q)
  {
    var open := Open(Subs(s, q), s.closed);
    OpenMembers(Subs(s, q), s.closed, c);
    CountAbsent(open, c);
    HandAllEffect(s.sent, open, Push(q, StoredOf(env)), c);
  }

  lemma {:induction false} FanOutSparesClosed(s: State, roster: seq<QueueId>, env: Envelope, c: Chan, q: QueueId)
    requires c in s.closed
    ensures
      var t := FanOut(s, roster, env);
      Sent(t, c) == Sent(s, c) && t.closed == s.closed && (q in roster || c !in Subs(s, q) ==> c !in Subs(t, q))
  {
    if roster != [] {
      var init, r := roster[..|roster| - 1], roster[|roster| - 1];
      assert roster == init + [r];
      FanOutSparesClosed(s, init, env, c, q);
      DepositSparesClosed(FanOut(s, init, env), r, env, c);
    }
  }

  /** What a message for queue `q` goes through. */
  predicate SendsTo(s: State, op: Op, q: QueueId) {
    match op
    case OpSendToMailbox(r, _, _) => r == q
    case OpSendToGroupInbox(r, _, _, _) =>
      r in s.queues && s.queues[r].kind.GroupInbox? && q in s.queues[r].kind.fanOutTo
    case _ => false
  }

  /**
   * A closed connection stays closed and is handed nothing more, and a queue's next message drops it from
   * the queue's subscribers.
   */
  lemma ClosedGetsNothing(s: State, op: Op, now: int, c: Chan, q: QueueId)
    requires c in s.closed
    ensures
      var (t, reply) := Do(s, op, now);
      && c in t.closed && Sent(t, c) == Sent(s, c)
      && (SendsTo(s, op, q) && reply == Accepted ==> c !in Subs(t, q))
  {
    match op
    case OpSendToMailbox(r, tag, env) =>
      if IsMailbox(s, r) {
        DepositSparesClosed(Charge(s, r, now).0, r, env, c);
      }
      hide PushAndNotify;
    case OpSendToGroupInbox(r, kind, tag, env) =>
      if r in s.queues && s.queues[r].kind.GroupInbox? {
        FanOutSparesClosed(Advance(Charge(s, r, now).0, r, kind), s.queues[r].kind.fanOutTo, env, c, q);
      }
      hide FanOut;
    case OpSubscribe(qs, tx) => RegisterAllKeeps(s, qs, tx);
    case _ =>
  }

  /** In every run a connection is handed nothing after it has closed. */
  lemma {:induction false} ClosedForGood(steps: seq<Step>, i: nat, c: Chan)
    requires i < |steps| && steps[i].op == OpClose(c)
    ensures c in Run(EMPTY, steps).closed && Sent(Run(EMPTY, steps), c) == Sent(Run(EMPTY, steps[..i]), c)
  {
    var init, last := steps[..|steps| - 1], steps[|steps| - 1];
    if i == |init| {
      assert steps[..i] == init;
    } else {
      assert init[..i] == steps[..i];
      ClosedForGood(init, i, c);
      hide Do;
      ClosedGetsNothing(Run(EMPTY, init), last.op, last.now, c, 0);
    }
  }
}
