/** The per-queue send rate over every run of one relay process. */
module RelayRate {
  import opened Wire
  import opened Limiter
  import opened Relay

  predicate SendsTo(op: Op, q: QueueId) {
    (op.OpSendToMailbox? || op.OpSendToGroupInbox?) && op.q == q
  }

  /** The send got as far as the rate window and was let through it. */
  predicate Charged(s: State, op: Op, now: int, q: QueueId) {
    && SendsTo(op, q) && q in s.queues && Charge(s, q, now).1
    && (Do(s, op, now).1 == Accepted || (op.OpSendToMailbox? && Do(s, op, now).1 == Rejected(StorageBoundExceeded)))
  }

  /** The times at which sends to `q` were accepted. */
  function AcceptedTimes(s: State, steps: seq<Step>, q: QueueId): seq<int> {
    if steps == [] then []
    else
      var init, last := steps[..|steps| - 1], steps[|steps| - 1];
      if SendsTo(last.op, q) && Do(Run(s, init), last.op, last.now).1 == Accepted
      then AcceptedTimes(s, init, q) + [last.now] else AcceptedTimes(s, init, q)
  }

  function ChargedTimes(s: State, steps: seq<Step>, q: QueueId): seq<int> {
    if steps == [] then []
    else
      var init, last := steps[..|steps| - 1], steps[|steps| - 1];
      if Charged(Run(s, init), last.op, last.now, q)
      then ChargedTimes(s, init, q) + [last.now] else ChargedTimes(s, init, q)
  }

  /** Steps of one process on a clock that never runs backwards. */
  ghost predicate OneProcess(steps: seq<Step>, start: int) {
    && (forall i :: 0 <= i < |steps| ==> !steps[i].op.OpRestart? && start <= steps[i].now)
    && (forall i, j :: 0 <= i <= j < |steps| ==> steps[i].now <= steps[j].now)
  }

  lemma {:induction false} FanOutKeepsWindow(s: State, roster: seq<QueueId>, env: Envelope, q: QueueId)
    requires q in s.queues
    ensures q in FanOut(s, roster, env).queues && FanOut(s, roster, env).queues[q].window == s.queues[q].window
  {
    if roster != [] {
      FanOutKeepsWindow(s, roster[..|roster| - 1], env, q);
    }
  }

  /** A queue's window moves only by a charge, and an uncharged send leaves at most an expired one reset. */
  lemma StepWindow(s: State, op: Op, now: int, q: QueueId)
    requires q in s.queues && !op.OpRestart?
    ensures
      var t := Do(s, op, now).0;
      && q in t.queues
      && (t.queues[q].window == s.queues[q].window ||
          (SendsTo(op, q) && t.queues[q].window == Charge(s, q, now).0.queues[q].window &&
           (Charge(s, q, now).1 ==> Charged(s, op, now, q))))
      && (Charged(s, op, now, q) ==> t.queues[q].window == Charge(s, q, now).0.queues[q].window)
  {
    hide Open, HandAll, RegisterAll, Backlogs, FanOut, Without, Freed, WouldExceedStorage;
    match op
    case OpSubscribe(qs, tx) => RegisterAllKeeps(s, qs, tx);
    case OpSendToGroupInbox(r, kind, tag, env) =>
      if Do(s, op, now).1 == Accepted {
        FanOutKeepsWindow(Advance(Charge(s, r, now).0, r, kind), s.queues[r].kind.fanOutTo, env, q);
      }
    case _ =>
  }

  lemma InvLater(ts: seq<int>, w: Window, clock: int, now: int)
    requires WindowInv(ts, w, RATE_LIMIT_PER_QUEUE_PER_MINUTE, clock) && clock <= now
    ensures WindowInv(ts, w, RATE_LIMIT_PER_QUEUE_PER_MINUTE, now)
  {
  }

  lemma NoneCharged(start: int)
    ensures WindowInv([], Window(0, start), RATE_LIMIT_PER_QUEUE_PER_MINUTE, start)
  {
  }

  lemma {:induction false} ChargedKeepsInv(s: State, steps: seq<Step>, q: QueueId, start: int)
    requires q in s.queues && s.queues[q].window == Window(0, start) && OneProcess(steps, start)
    ensures
      var t := Run(s, steps);
      && q in t.queues
      && WindowInv(ChargedTimes(s, steps, q), t.queues[q].window, RATE_LIMIT_PER_QUEUE_PER_MINUTE,
                   if steps == [] then start else steps[|steps| - 1].now)
  {
    hide Do, WindowInv, SendsTo;
    if steps == [] {
      NoneCharged(start);
    } else {
      var init, last := steps[..|steps| - 1], steps[|steps| - 1];
      assert forall i :: 0 <= i < |init| ==> init[i] == steps[i];
      ChargedKeepsInv(s, init, q, start);
      var u, ts := Run(s, init), ChargedTimes(s, init, q);
      var clock := if init == [] then start else init[|init| - 1].now;
      StepWindow(u, last.op, last.now, q);
      InvLater(ts, u.queues[q].window, clock, last.now);
      BumpKeepsInv(ts, u.queues[q].window, RATE_LIMIT_PER_QUEUE_PER_MINUTE, clock, last.now,
                   RATE_LIMIT_PER_QUEUE_PER_MINUTE);
    }
  }

  lemma AcceptedIsCharged(s: State, op: Op, now: int, q: QueueId)
    requires SendsTo(op, q) && Do(s, op, now).1 == Accepted
    ensures Charged(s, op, now, q)
  {
  }

  lemma {:induction false} AcceptedWithinCharged(s: State, steps: seq<Step>, q: QueueId, lo: int, hi: int)
    ensures Between(AcceptedTimes(s, steps, q), lo, hi) <= Between(ChargedTimes(s, steps, q), lo, hi)
  {
    hide Do, Charged, SendsTo;
    if steps != [] {
      var init, last := steps[..|steps| - 1], steps[|steps| - 1];
      AcceptedWithinCharged(s, init, q, lo, hi);
      BetweenSnoc(AcceptedTimes(s, init, q), last.now, lo, hi);
      BetweenSnoc(ChargedTimes(s, init, q), last.now, lo, hi);
      if SendsTo(last.op, q) && Do(Run(s, init), last.op, last.now).1 == Accepted {
        AcceptedIsCharged(Run(s, init), last.op, last.now, q);
      }
    }
  }

  /** From a queue's creation on, any half-open minute accepts at most twice the limit for it. */
  lemma QueueRateBound(s: State, steps: seq<Step>, q: QueueId, start: int, lo: int)
    requires q in s.queues && s.queues[q].window == Window(0, start) && OneProcess(steps, start)
    ensures Between(AcceptedTimes(s, steps, q), lo, lo + MINUTE) <= 2 * RATE_LIMIT_PER_QUEUE_PER_MINUTE
  {
    ChargedKeepsInv(s, steps, q, start);
    AcceptedWithinCharged(s, steps, q, lo, lo + MINUTE);
  }

  // ---- the documented limit ------------------------------------------------------------------

  /** Direct sends of one message to one mailbox. */
  function Sends(q: QueueId, tag: AuthTag, env: Envelope, times: seq<int>): (steps: seq<Step>)
    ensures |steps| == |times|
  {
    if times == [] then []
    else Sends(q, tag, env, times[..|times| - 1]) + [Step(OpSendToMailbox(q, tag, env), times[|times| - 1])]
  }

  lemma {:induction false} SendsAt(q: QueueId, tag: AuthTag, env: Envelope, times: seq<int>)
    ensures forall i :: 0 <= i < |times| ==>
      Sends(q, tag, env, times)[i] == Step(OpSendToMailbox(q, tag, env), times[i])
  {
    if times != [] {
      SendsAt(q, tag, env, times[..|times| - 1]);
    }
  }

  /** The mailbox, the storage bound and the message leave room for `n` sends: only the rate can refuse them. */
  predicate HasRoom(s: State, q: QueueId, tag: AuthTag, env: Envelope, n: nat) {
    && IsMailbox(s, q) && tag == ComputeTag(s.queues[q].sendKey, q, env) && env.size <= MAX_MESSAGE_SIZE
    && |Pending(s, q)| + n <= MAX_QUEUE_DEPTH && s.storage + n * MAX_MESSAGE_SIZE <= MAX_STORAGE_BYTES
  }

  lemma OneSend(s: State, q: QueueId, tag: AuthTag, env: Envelope, now: int, n: nat)
    requires HasRoom(s, q, tag, env, n + 1)
    ensures
      var (t, reply) := Do(s, OpSendToMailbox(q, tag, env), now);
      var (w, passes) := Bump(s.queues[q].window, now, RATE_LIMIT_PER_QUEUE_PER_MINUTE);
      HasRoom(t, q, tag, env, n) && t.queues[q].window == w && (reply == Accepted <==> passes)
  {
  }

  /** One more step of a run, and what it adds to the accepted sends. */
  lemma SnocRun(s: State, steps: seq<Step>, last: Step, q: QueueId)
    ensures Run(s, steps + [last]) == Do(Run(s, steps), last.op, last.now).0
    ensures AcceptedTimes(s, steps + [last], q) ==
      if SendsTo(last.op, q) && Do(Run(s, steps), last.op, last.now).1 == Accepted
      then AcceptedTimes(s, steps, q) + [last.now] else AcceptedTimes(s, steps, q)
  {
    hide Do;
    assert (steps + [last])[..|steps|] == steps;
  }

  /** Run on sends at `times`, the queue has done what its window alone would do. */
  ghost predicate Follows(
    s: State, q: QueueId, tag: AuthTag, env: Envelope, w: Window, steps: seq<Step>, times: seq<int>, n: nat)
  {
    var t := Run(s, steps);
    && HasRoom(t, q, tag, env, n)
    && (t.queues[q].window, AcceptedTimes(s, steps, q)) == Passed(w, times, RATE_LIMIT_PER_QUEUE_PER_MINUTE)
  }

  lemma FollowsOn(
    s: State, q: QueueId, tag: AuthTag, env: Envelope, w: Window, steps: seq<Step>, times: seq<int>, n: nat, now: int)
    requires Follows(s, q, tag, env, w, steps, times, n + 1)
    ensures
      Follows(s, q, tag, env, w, steps + [Step(OpSendToMailbox(q, tag, env), now)], times + [now], n)
  {
    OneSend(Run(s, steps), q, tag, env, now, n);
    hide Do, Run, AcceptedTimes, Passed, Bump;
    SnocRun(s, steps, Step(OpSendToMailbox(q, tag, env), now), q);
    PassedSnoc(w, times, now, RATE_LIMIT_PER_QUEUE_PER_MINUTE);
  }

  /** With room for them, exactly the sends that the window lets pass are accepted. */
  lemma {:induction false} SendsFollowWindow(
    s: State, q: QueueId, tag: AuthTag, env: Envelope, times: seq<int>, n: nat)
    requires HasRoom(s, q, tag, env, |times| + n)
    ensures Follows(s, q, tag, env, s.queues[q].window, Sends(q, tag, env, times), times, n)
  {
    if times != [] {
      var w, init, now := s.queues[q].window, times[..|times| - 1], times[|times| - 1];
      assert init + [now] == times;
      hide HasRoom, Follows;
      SendsFollowWindow(s, q, tag, env, init, n + 1);
      FollowsOn(s, q, tag, env, w, Sends(q, tag, env, init), init, n, now);
    }
  }

  /**
   * The documented sixty per rolling minute fails: a mailbox made at `start` accepts a hundred and
   * twenty direct sends within a nanosecond.
   */
  lemma RollingMinuteFails(s: State, q: QueueId, tag: AuthTag, env: Envelope, start: int)
    requires HasRoom(s, q, tag, env, 120) && s.queues[q].window == Window(0, start)
    ensures
      var steps := Sends(q, tag, env, TwoBursts(start, RATE_LIMIT_PER_QUEUE_PER_MINUTE));
      && OneProcess(steps, start)
      && Between(AcceptedTimes(s, steps, q), start + MINUTE - 1, start + MINUTE + 1) == 120
  {
    Limiter.RollingMinuteFails(start, RATE_LIMIT_PER_QUEUE_PER_MINUTE);
    var times := TwoBursts(start, RATE_LIMIT_PER_QUEUE_PER_MINUTE);
    SendsFollowWindow(s, q, tag, env, times, 0);
    SendsAt(q, tag, env, times);
    assert forall i :: 0 <= i < |times| ==> times[i] == if i < 60 then start + MINUTE - 1 else start + MINUTE;
    hide Sends, TwoBursts, Passed, Run, AcceptedTimes, Between, HasRoom;
  }

  /**
   * Exactly when: in every run of one process, a send that gets to the rate window and through it is
   * beyond sixty in the last minute if and only if the sends since the window opened, with those of
   * the minute before it opened, are sixty; and the window stops none that is not. Its count is exact
   * from its opening on, so the sends of the minute before that are just what the reset forgot.
   */
  lemma RollingExactly(s: State, steps: seq<Step>, q: QueueId, start: int, now: int)
    requires q in s.queues && s.queues[q].window == Window(0, start) && OneProcess(steps, start)
    requires start <= now && (steps != [] ==> steps[|steps| - 1].now <= now)
    ensures q in Run(s, steps).queues
    ensures
      var ts, u := ChargedTimes(s, steps, q), Run(s, steps);
      var w1, passes := Opened(u.queues[q].window, now), Charge(u, q, now).1;
      && (!passes ==> LastMinute(ts, now) >= RATE_LIMIT_PER_QUEUE_PER_MINUTE)
      && (passes ==>
            (LastMinute(ts, now) >= RATE_LIMIT_PER_QUEUE_PER_MINUTE <==>
             Between(ts, now - MINUTE + 1, w1.started) >= RATE_LIMIT_PER_QUEUE_PER_MINUTE - w1.count))
  {
    ChargedKeepsInv(s, steps, q, start);
    RollingVerdict(ChargedTimes(s, steps, q), Run(s, steps).queues[q].window, RATE_LIMIT_PER_QUEUE_PER_MINUTE,
                   if steps == [] then start else steps[|steps| - 1].now, now);
  }
}
