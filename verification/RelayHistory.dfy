/** Whole runs of the relay: backlogs against history, and delivery streams. */
module RelayHistory {
  import opened Base
  import opened Wire
  import opened Relay
  import opened RelayEffects

  /** What a run did, as its clients could tell from their accepted requests. */
  datatype Event = Arrived(q: QueueId, stored: Stored) | Acked(q: QueueId, id: MessageId)

  /** One arrival per roster entry that names a mailbox, in roster order. */
  function FanOutEvents(s: State, roster: seq<QueueId>, x: Stored): seq<Event> {
    if roster == [] then []
    else
      var r, rest := roster[|roster| - 1], FanOutEvents(s, roster[..|roster| - 1], x);
      if IsMailbox(s, r) then rest + [Arrived(r, x)] else rest
  }

  function EventsOf(s: State, op: Op, now: int): seq<Event> {
    if Do(s, op, now).1 != Accepted then []
    else match op
      case OpSendToMailbox(q, _, env) => [Arrived(q, StoredOf(env))]
      case OpSendToGroupInbox(q, _, _, env) =>
        if q in s.queues && s.queues[q].kind.GroupInbox?
        then FanOutEvents(s, s.queues[q].kind.fanOutTo, StoredOf(env)) else []
      case OpAck(q, id) => [Acked(q, id)]
      case _ => []
  }

  function History(s: State, steps: seq<Step>): seq<Event> {
    if steps == [] then []
    else
      var init, last := steps[..|steps| - 1], steps[|steps| - 1];
      History(s, init) + EventsOf(Run(s, init), last.op, last.now)
  }

  /** The messages that arrived at `q`, in order. */
  function ArrivedAt(h: seq<Event>, q: QueueId): seq<Stored> {
    if h == [] then []
    else
      var e, rest := h[|h| - 1], ArrivedAt(h[..|h| - 1], q);
      if e.Arrived? && e.q == q then rest + [e.stored] else rest
  }

  predicate AckedIn(h: seq<Event>, q: QueueId, id: MessageId) {
    Acked(q, id) in h
  }

  /** The arrivals at `q` that no later event acknowledges. */
  function Unacked(h: seq<Event>, q: QueueId): seq<Stored> {
    if h == [] then []
    else if h[0].Arrived? && h[0].q == q && !AckedIn(h[1..], q, h[0].stored.messageId) then
      [h[0].stored] + Unacked(h[1..], q)
    else Unacked(h[1..], q)
  }

  // ---- facts about histories ---------------------------------------------------------------

  lemma {:induction false} ArrivedAtAppend(h: seq<Event>, more: seq<Event>, q: QueueId)
    ensures ArrivedAt(h + more, q) == ArrivedAt(h, q) + ArrivedAt(more, q)
  {
    if more == [] {
      assert h + more == h;
    } else {
      assert (h + more)[..|h + more| - 1] == h + more[..|more| - 1];
      ArrivedAtAppend(h, more[..|more| - 1], q);
    }
  }

  lemma {:induction false} FanOutArrivals(s: State, roster: seq<QueueId>, x: Stored, q: QueueId)
    ensures ArrivedAt(FanOutEvents(s, roster, x), q) ==
            Copies(x, if IsMailbox(s, q) then Count(roster, q) else 0)
    ensures forall e :: e in FanOutEvents(s, roster, x) ==> e.Arrived? && IsMailbox(s, e.q)
  {
    if roster != [] {
      var init := roster[..|roster| - 1];
      FanOutArrivals(s, init, x, q);
      AppendCopy([], x, Count(init, q));
    }
  }

  lemma {:induction false} UnackedOneMore(h: seq<Event>, q: QueueId, e: Event)
    ensures
      Unacked(h + [e], q) ==
      match e
      case Arrived(r, x) => if r == q then Unacked(h, q) + [x] else Unacked(h, q)
      case Acked(r, id) => if r == q then Without(Unacked(h, q), id) else Unacked(h, q)
  {
    if h == [] {
      assert ([] + [e])[1..] == [];
    } else {
      hide Without;
      var a, rest := h[0], h[1..];
      assert (h + [e])[1..] == rest + [e] && (h + [e])[0] == a;
      UnackedOneMore(rest, q, e);
      if e.Acked? && e.q == q && a.Arrived? && a.q == q {
        WithoutCons(a.stored, Unacked(rest, q), e.id);
      }
    }
  }

  lemma {:induction false} WithoutCons(x: Stored, xs: seq<Stored>, id: MessageId)
    ensures Without([x] + xs, id) == if x.messageId == id then Without(xs, id) else [x] + Without(xs, id)
  {
    if xs == [] {
      assert [x] + xs == [x];
      assert [x][..0] == [];
    } else {
      var init := xs[..|xs| - 1];
      assert ([x] + xs)[..|xs|] == [x] + init;
      WithoutCons(x, init, id);
    }
  }

  lemma {:induction false} UnackedArrivals(h: seq<Event>, more: seq<Event>, q: QueueId)
    requires forall e :: e in more ==> e.Arrived?
    ensures Unacked(h + more, q) == Unacked(h, q) + ArrivedAt(more, q)
  {
    if more == [] {
      assert h + more == h;
    } else {
      var init, e := more[..|more| - 1], more[|more| - 1];
      assert e in more && forall d :: d in init ==> d in more;
      assert h + more == (h + init) + [e];
      UnackedArrivals(h, init, q);
      UnackedOneMore(h + init, q, e);
    }
  }

  // ---- one step ----------------------------------------------------------------------------

  /** What an accepted send does to one mailbox and one channel, in terms of its events. */
  ghost predicate SendEffect(s: State, t: State, events: seq<Event>, q: QueueId, c: Chan) {
    && SubsDistinct(t)
    && t.queues.Keys == s.queues.Keys
    && t.closed == s.closed
    && (IsMailbox(t, q) <==> IsMailbox(s, q))
    && (Listening(t, c, q) <==> Listening(s, c, q))
    && (IsMailbox(s, q) ==> Pending(t, q) == Pending(s, q) + ArrivedAt(events, q))
    && (IsMailbox(s, q) && Listening(s, c, q) ==>
          Delivered(t, c, q) == Delivered(s, c, q) + ArrivedAt(events, q))
    && (!Listening(s, c, q) ==> Delivered(t, c, q) == Delivered(s, c, q))
  }

  lemma OneArrival(r: QueueId, x: Stored, q: QueueId)
    ensures ArrivedAt([Arrived(r, x)], q) == if r == q then [x] else []
  {
    assert [Arrived(r, x)][..0] == [];
  }

  lemma MailboxSendEffect(s: State, op: Op, now: int, q: QueueId, c: Chan)
    requires SubsDistinct(s) && op.OpSendToMailbox? && Do(s, op, now).1 == Accepted
    ensures SendEffect(s, Do(s, op, now).0, EventsOf(s, op, now), q, c)
  {
    hide PushAndNotify, SendEffect, Stream;
    var s1 := Charge(s, op.q, now).0;
    assert Do(s, op, now).0 == PushAndNotify(s1, op.q, op.envelope);
    assert EventsOf(s, op, now) == [Arrived(op.q, StoredOf(op.envelope))];
    assert s1 == s.(queues := s1.queues) && IsMailbox(s, op.q);
    assert IsMailbox(s1, q) <==> IsMailbox(s, q);
    assert Pending(s1, q) == Pending(s, q);
    hide Do, EventsOf, Charge;
    DepositSendEffect(s, s1, op.q, op.envelope, q, c);
  }

  lemma DepositSendEffect(s: State, s1: State, r: QueueId, env: Envelope, q: QueueId, c: Chan)
    requires SubsDistinct(s) && s1 == s.(queues := s1.queues) && s1.queues.Keys == s.queues.Keys
    requires (IsMailbox(s1, q) <==> IsMailbox(s, q)) && Pending(s1, q) == Pending(s, q)
    ensures SendEffect(s, PushAndNotify(s1, r, env), [Arrived(r, StoredOf(env))], q, c)
  {
    DepositEffect(s1, r, env, q, c);
    DepositDelivered(s1, r, env, q, c);
    OneArrival(r, StoredOf(env), q);
    hide PushAndNotify, Stream, ArrivedAt, IsMailbox;
    assert Delivered(s1, c, q) == Delivered(s, c, q);
    assert Listening(s1, c, q) <==> Listening(s, c, q);
  }

  lemma GroupSendEffect(s: State, op: Op, now: int, q: QueueId, c: Chan)
    requires SubsDistinct(s) && op.OpSendToGroupInbox? && Do(s, op, now).1 == Accepted
    ensures SendEffect(s, Do(s, op, now).0, EventsOf(s, op, now), q, c)
  {
    hide FanOut, SendEffect, FanOutEvents, Stream;
    var s2, roster := Advance(Charge(s, op.q, now).0, op.q, op.kind), s.queues[op.q].kind.fanOutTo;
    assert Do(s, op, now).0 == FanOut(s2, roster, op.envelope);
    assert EventsOf(s, op, now) == FanOutEvents(s, roster, StoredOf(op.envelope));
    assert SubsDistinct(s2) && s2 == s.(queues := s2.queues);
    assert IsMailbox(s2, q) <==> IsMailbox(s, q);
    assert Pending(s2, q) == Pending(s, q);
    hide Do, EventsOf, Charge, Advance;
    FanOutSendEffect(s, s2, roster, op.envelope, q, c);
  }

  lemma FanOutSendEffect(s: State, s2: State, roster: seq<QueueId>, env: Envelope, q: QueueId, c: Chan)
    requires SubsDistinct(s2) && s2 == s.(queues := s2.queues) && s2.queues.Keys == s.queues.Keys
    requires (IsMailbox(s2, q) <==> IsMailbox(s, q)) && Pending(s2, q) == Pending(s, q)
    ensures SendEffect(s, FanOut(s2, roster, env), FanOutEvents(s, roster, StoredOf(env)), q, c)
  {
    FanOutFrame(s2, roster, env, q, c);
    FanOutPending(s2, roster, env, q);
    FanOutDelivered(s2, roster, env, q, c);
    FanOutArrivals(s, roster, StoredOf(env), q);
    AppendCopy(Delivered(s, c, q), StoredOf(env), 0);
  }

  /** A rejected send changes at most a rate window. */
  lemma RejectedFrame(s: State, op: Op, now: int)
    requires Do(s, op, now).1 != Accepted
    ensures
      var t := Do(s, op, now).0;
      && t == s.(queues := t.queues)
      && t.queues.Keys == s.queues.Keys
      && forall q :: q in s.queues ==> t.queues[q] == s.queues[q].(window := t.queues[q].window)
  {
  }

  /** Every step keeps subscriber lists free of duplicates, and never removes or retypes a queue. */
  lemma StepFrame(s: State, op: Op, now: int, q: QueueId)
    requires SubsDistinct(s)
    ensures
      var t := Do(s, op, now).0;
      && SubsDistinct(t)
      && (q in s.queues ==> q in t.queues)
      && (q in s.queues ==> (IsMailbox(t, q) <==> IsMailbox(s, q)))
      && (q !in s.queues && q in t.queues ==> Pending(t, q) == [])
  {
    hide PushAndNotify, FanOut, Subscribe, SendToMailbox, SendToGroupInbox, EventsOf, Stream;
    if Do(s, op, now).1 != Accepted {
      RejectedFrame(s, op, now);
    } else {
      match op
      case OpSubscribe(qs, tx) => SubscribeEffect(s, qs, tx, q, tx);
      case OpSendToMailbox(_, _, _) => MailboxSendEffect(s, op, now, q, 0);
      case OpSendToGroupInbox(_, _, _, _) => GroupSendEffect(s, op, now, q, 0);
      case _ =>
    }
  }

  /** A step's effect on one backlog is exactly its events at that mailbox. */
  lemma StepBacklog(s: State, op: Op, now: int, q: QueueId)
    requires SubsDistinct(s) && IsMailbox(s, q)
    ensures
      Pending(Do(s, op, now).0, q) ==
      if op.OpAck? then (if op.q == q then Without(Pending(s, q), op.id) else Pending(s, q))
      else Pending(s, q) + ArrivedAt(EventsOf(s, op, now), q)
  {
    hide PushAndNotify, FanOut, Subscribe, SendToMailbox, SendToGroupInbox, Stream, Without;
    if Do(s, op, now).1 != Accepted {
      RejectedFrame(s, op, now);
    } else {
      match op
      case OpSubscribe(qs, tx) => SubscribeEffect(s, qs, tx, q, tx);
      case OpSendToMailbox(_, _, _) => MailboxSendEffect(s, op, now, q, 0);
      case OpSendToGroupInbox(_, _, _, _) => GroupSendEffect(s, op, now, q, 0);
      case _ =>
    }
  }

  /** Messages arrive only at mailboxes. */
  lemma StepEventsAtMailboxes(s: State, op: Op, now: int)
    ensures forall e :: e in EventsOf(s, op, now) && e.Arrived? ==> IsMailbox(s, e.q)
    ensures !op.OpAck? ==> forall e :: e in EventsOf(s, op, now) ==> e.Arrived?
  {
    if op.OpSendToGroupInbox? && Do(s, op, now).1 == Accepted {
      FanOutArrivals(s, s.queues[op.q].kind.fanOutTo, StoredOf(op.envelope), 0);
    }
  }

  // ---- backlog equals history --------------------------------------------------------------

  /**
   * In every run a mailbox holds exactly the messages accepted for it, directly or by fan-out and
   * with roster multiplicity, in acceptance order, that no later ack of their id removed.
   */
  lemma {:induction false} BacklogIsHistory(steps: seq<Step>, q: QueueId)
    ensures
      var s := Run(EMPTY, steps);
      && SubsDistinct(s)
      && (IsMailbox(s, q) ==> Pending(s, q) == Unacked(History(EMPTY, steps), q))
      && (!IsMailbox(s, q) ==> Unacked(History(EMPTY, steps), q) == [])
  {
    if steps != [] {
      var init, last := steps[..|steps| - 1], steps[|steps| - 1];
      BacklogIsHistory(init, q);
      var s, h := Run(EMPTY, init), History(EMPTY, init);
      var more := EventsOf(s, last.op, last.now);
      StepFrame(s, last.op, last.now, q);
      StepEventsAtMailboxes(s, last.op, last.now);
      if last.op.OpAck? {
        UnackedOneMore(h, q, Acked(last.op.q, last.op.id));
      } else {
        UnackedArrivals(h, more, q);
      }
      if IsMailbox(s, q) {
        StepBacklog(s, last.op, last.now, q);
      } else {
        NothingArrived(more, q);
      }
    }
  }

  lemma {:induction false} NothingArrived(h: seq<Event>, q: QueueId)
    requires forall e :: e in h && e.Arrived? ==> e.q != q
    ensures ArrivedAt(h, q) == []
  {
    if h != [] {
      assert forall e :: e in h[..|h| - 1] ==> e in h;
      NothingArrived(h[..|h| - 1], q);
    }
  }

  // ---- delivery streams --------------------------------------------------------------------

  /** The connection stays open and does not subscribe to `q` again. */
  ghost predicate Undisturbed(steps: seq<Step>, tx: Chan, q: QueueId) {
    forall i :: 0 <= i < |steps| ==>
      && !(steps[i].op.OpSubscribe? && steps[i].op.tx == tx && q in steps[i].op.qs)
      && !(steps[i].op.OpClose? && steps[i].op.tx == tx)
      && !steps[i].op.OpRestart?
  }

  /** A step hands a listening channel exactly the messages it makes arrive. */
  lemma StepDelivers(s: State, op: Op, now: int, tx: Chan, q: QueueId)
    requires SubsDistinct(s) && IsMailbox(s, q) && Listening(s, tx, q)
    requires !(op.OpSubscribe? && op.tx == tx && q in op.qs)
    requires !(op.OpClose? && op.tx == tx) && !op.OpRestart?
    ensures
      var t := Do(s, op, now).0;
      Listening(t, tx, q) &&
      Delivered(t, tx, q) == Delivered(s, tx, q) + ArrivedAt(EventsOf(s, op, now), q)
  {
    hide PushAndNotify, FanOut, Subscribe, SendToMailbox, SendToGroupInbox, Stream, Without;
    if Do(s, op, now).1 != Accepted {
      RejectedFrame(s, op, now);
    } else {
      match op
      case OpSubscribe(qs, c) => SubscribeEffect(s, qs, c, q, tx);
      case OpSendToMailbox(_, _, _) => MailboxSendEffect(s, op, now, q, tx);
      case OpSendToGroupInbox(_, _, _, _) => GroupSendEffect(s, op, now, q, tx);
      case OpAck(r, id) => assert ArrivedAt([Acked(r, id)], q) == ArrivedAt([Acked(r, id)][..0], q);
      case _ =>
    }
  }

  /**
   * After a subscription listing mailbox `q` once, the pushes for `q` on that connection are the
   * backlog of that moment followed by every later arrival, in order, once each.
   */
  lemma {:induction false} DeliveryStream(s: State, qs: seq<QueueId>, tx: Chan, q: QueueId, steps: seq<Step>)
    requires SubsDistinct(s) && IsMailbox(s, q) && Count(qs, q) == 1 && tx !in s.closed
    requires Undisturbed(steps, tx, q)
    ensures
      var s1 := Subscribe(s, qs, tx);
      var t := Run(s1, steps);
      && SubsDistinct(t) && IsMailbox(t, q) && Listening(t, tx, q)
      && Delivered(t, tx, q) == Delivered(s, tx, q) + Pending(s, q) + ArrivedAt(History(s1, steps), q)
  {
    var s1 := Subscribe(s, qs, tx);
    if steps == [] {
      SubscribeEffect(s, qs, tx, q, tx);
    } else {
      var init, last := steps[..|steps| - 1], steps[|steps| - 1];
      DeliveryStream(s, qs, tx, q, init);
      var t := Run(s1, init);
      StepFrame(t, last.op, last.now, q);
      StepDelivers(t, last.op, last.now, tx, q);
      var h, more := History(s1, init), EventsOf(t, last.op, last.now);
      ArrivedAtAppend(h, more, q);
      ConcatAssoc(Delivered(s, tx, q) + Pending(s, q), ArrivedAt(h, q), ArrivedAt(more, q));
    }
  }
}
