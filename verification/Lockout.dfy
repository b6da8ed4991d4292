/** The directory's PIN attempt counter and its lockout schedule. */
module Lockout {
  import opened Base

  type Bytes = seq<bv8>

  /** The part of a backups row that authentication reads and writes; times are unix seconds. */
  datatype Row = Row(pinHash: Bytes, phraseHash: Bytes, attempts: nat, lockedUntil: Option<int>)

  datatype Verdict = Match | WrongPin(remaining: nat) | WrongPhrase | Locked(until: int)

  const HOUR := 3600

  function LockoutHours(index: nat): nat {
    if index <= 1 then 1 else if index == 2 then 4 else 24
  }

  /** Comparison without an early exit: the differences of all byte pairs are collected first. */
  method ConstantTimeEq(a: Bytes, b: Bytes) returns (same: bool)
    ensures same <==> a == b
  {
    if |a| != |b| {
      return false;
    }
    var acc: bv8 := 0;
    for i := 0 to |a|
      invariant acc == 0 <==> a[..i] == b[..i]
    {
      assert a[..i + 1] == a[..i] + [a[i]] && b[..i + 1] == b[..i] + [b[i]];
      NoDifference(acc, a[i], b[i]);
      acc := acc | (a[i] ^ b[i]);
    }
    assert a[..|a|] == a && b[..|b|] == b;
    return acc == 0;
  }

  lemma NoDifference(acc: bv8, x: bv8, y: bv8)
    ensures acc | (x ^ y) == 0 <==> acc == 0 && x == y
  {
  }

  /** Whether a PIN attempt is turned away before the PIN is looked at. */
  predicate LockedAt(r: Row, now: int) {
    r.lockedUntil.Some? && r.lockedUntil.value > now
  }

  function Reset(r: Row): Row {
    r.(attempts := 0, lockedUntil := None)
  }

  /** A wrong PIN that the lock let through. */
  function Miscount(r: Row, now: int): (Row, Verdict) {
    var n := r.attempts + 1;
    if n % 10 == 0 then
      var until := now + LockoutHours(n / 10) * HOUR;
      (r.(attempts := n, lockedUntil := Some(until)), Locked(until))
    else (r.(attempts := n), WrongPin(10 - n % 10))
  }

  function Verify(r: Row, auth: Bytes, isPin: bool, now: int): (Row, Verdict) {
    if isPin && LockedAt(r, now) then (r, Locked(r.lockedUntil.value))
    else if auth == (if isPin then r.pinHash else r.phraseHash) then (Reset(r), Match)
    else if !isPin then (r, WrongPhrase)
    else Miscount(r, now)
  }

  /** The transaction on one backups row: the row it leaves and the answer it gives. */
  method CheckAuth(row: Row, auth: Bytes, isPin: bool, now: int) returns (after: Row, verdict: Verdict)
    ensures (after, verdict) == Verify(row, auth, isPin, now)
  {
    after := row;
    if isPin && row.lockedUntil.Some? && row.lockedUntil.value > now {
      return after, Locked(row.lockedUntil.value);
    }
    var same := ConstantTimeEq(auth, if isPin then row.pinHash else row.phraseHash);
    if same {
      after := after.(attempts := 0, lockedUntil := None);
      return after, Match;
    }
    if !isPin {
      return after, WrongPhrase;
    }
    after := after.(attempts := row.attempts + 1);
    if after.attempts % 10 == 0 {
      after := after.(lockedUntil := Some(now + LockoutHours(after.attempts / 10) * HOUR));
      return after, Locked(after.lockedUntil.value);
    }
    return after, WrongPin(10 - after.attempts % 10);
  }

  // ---- the schedule over whole runs ----------------------------------------------------------

  /** One thing that happens to an account's row. */
  datatype Event = Tried(auth: Bytes, isPin: bool, at: int) | Uploaded(pinHash: Bytes, phraseHash: Bytes, at: int)

  function Apply(r: Row, e: Event): Row {
    match e
    case Tried(auth, isPin, at) => Verify(r, auth, isPin, at).0
    case Uploaded(pinHash, phraseHash, at) => Row(pinHash, phraseHash, 0, None)
  }

  function After(r: Row, events: seq<Event>): Row {
    if events == [] then r else Apply(After(r, events[..|events| - 1]), events[|events| - 1])
  }

  /** A PIN was compared and found wrong: the only way a guess can be spent. */
  predicate Counted(r: Row, e: Event) {
    e.Tried? && e.isPin && !LockedAt(r, e.at) && e.auth != r.pinHash
  }

  predicate Resets(r: Row, e: Event) {
    e.Uploaded? || (Verify(r, e.auth, e.isPin, e.at).1 == Match)
  }

  /** When each counted wrong PIN since the last reset was made. */
  function WrongPins(r: Row, events: seq<Event>): seq<int> {
    if events == [] then []
    else
      var before := events[..|events| - 1];
      var e := events[|events| - 1];
      if Resets(After(r, before), e) then []
      else if Counted(After(r, before), e) then WrongPins(r, before) + [e.at]
      else WrongPins(r, before)
  }

  /** The time of the last reset, which is where the row itself began when there was none. */
  function LastReset(r: Row, start: int, events: seq<Event>): int {
    if events == [] then start
    else
      var before := events[..|events| - 1];
      var e := events[|events| - 1];
      if Resets(After(r, before), e) then e.at else LastReset(r, start, before)
  }

  ghost predicate Clock(start: int, events: seq<Event>) {
    && (forall i :: 0 <= i < |events| ==> start <= events[i].at)
    && (forall i, j :: 0 <= i < j < |events| ==> events[i].at <= events[j].at)
  }

  /** Hours of lockout that the first `k` locks impose together. */
  function HoursBefore(k: nat): nat {
    if k == 0 then 0 else HoursBefore(k - 1) + LockoutHours(k)
  }

  /** One hour, then four, then a day for every further ten guesses. */
  lemma {:induction false} HoursInClosedForm(k: nat)
    ensures HoursBefore(k) == if k == 0 then 0 else if k == 1 then 1 else 5 + 24 * (k - 2)
  {
    if k > 0 {
      HoursInClosedForm(k - 1);
    }
  }

  ghost predicate Fresh(r: Row) {
    r.attempts == 0 && r.lockedUntil == None
  }

  /** The lock that a list of wrong PINs amounts to: from the tenth of each ten, for one hour, four, then a day. */
  function LockEnd(wrong: seq<int>): Option<int> {
    var k := |wrong| / 10;
    if k == 0 then None
    else Some(wrong[10 * k - 1] + 3600 * if k == 1 then 1 else if k == 2 then 4 else 24)
  }

  /** What ties a row to the guesses made since its last reset at `t0`. */
  ghost predicate OnSchedule(r: Row, t0: int, wrong: seq<int>) {
    && r.attempts == |wrong|
    && r.lockedUntil == LockEnd(wrong)
    && (|wrong| >= 10 ==> LockEnd(wrong).value >= t0 + HOUR * HoursBefore(|wrong| / 10))
    && forall k: nat :: 10 * k < |wrong| ==> wrong[10 * k] >= t0 + HOUR * HoursBefore(k)
  }

  /** A counted guess keeps the schedule: the lock it had to wait out dates it. */
  lemma CountedOnSchedule(r: Row, t0: int, wrong: seq<int>, now: int)
    requires OnSchedule(r, t0, wrong) && !LockedAt(r, now) && t0 <= now
    ensures OnSchedule(Miscount(r, now).0, t0, wrong + [now])
  {
    var n := |wrong| + 1;
    var next := wrong + [now];
    assert now >= t0 + HOUR * HoursBefore(|wrong| / 10);
    forall k: nat | 10 * k < n
      ensures next[10 * k] >= t0 + HOUR * HoursBefore(k)
    {
      if 10 * k == |wrong| {
        assert k == |wrong| / 10;
      }
    }
    if n % 10 == 0 {
      assert n / 10 == |wrong| / 10 + 1;
      assert HoursBefore(n / 10) == HoursBefore(|wrong| / 10) + LockoutHours(n / 10);
      assert next[10 * (n / 10) - 1] == now;
    } else {
      assert n / 10 == |wrong| / 10;
      assert n / 10 > 0 ==> next[10 * (n / 10) - 1] == wrong[10 * (n / 10) - 1];
    }
  }

  lemma {:induction false} RunsOnSchedule(r: Row, start: int, events: seq<Event>)
    requires Fresh(r) && Clock(start, events)
    ensures OnSchedule(After(r, events), LastReset(r, start, events), WrongPins(r, events))
    ensures start <= LastReset(r, start, events)
    ensures events != [] ==> LastReset(r, start, events) <= events[|events| - 1].at
  {
    if events != [] {
      var before := events[..|events| - 1];
      var e := events[|events| - 1];
      RunsOnSchedule(r, start, before);
      if before != [] {
        assert before[|before| - 1] == events[|events| - 2];
      }
      if Counted(After(r, before), e) {
        CountedOnSchedule(After(r, before), LastReset(r, start, before), WrongPins(r, before), e.at);
      }
    }
  }

  /**
   * However attempts, matches and uploads are interleaved, the guess that follows `k` locks since the
   * last reset is not made before those locks have all been served in full.
   */
  lemma GuessesAreSpaced(r: Row, start: int, events: seq<Event>, k: nat)
    requires Fresh(r) && Clock(start, events)
    requires 10 * k < |WrongPins(r, events)|
    ensures WrongPins(r, events)[10 * k] >= LastReset(r, start, events) + HOUR * HoursBefore(k)
  {
    RunsOnSchedule(r, start, events);
  }

  /**
   * Every answer over every run, from its history alone: the times of the wrong PINs since the last
   * reset decide lock, remaining number and end of the next lock, and the stored hashes the match.
   */
  lemma AnswerIsExact(r: Row, start: int, events: seq<Event>, auth: Bytes, isPin: bool, now: int)
    requires Fresh(r) && Clock(start, events)
    ensures
      var row, wrong := After(r, events), WrongPins(r, events);
      var n := |wrong| + 1;
      Verify(row, auth, isPin, now).1 ==
      if isPin && LockEnd(wrong).Some? && now < LockEnd(wrong).value then Locked(LockEnd(wrong).value)
      else if auth == (if isPin then row.pinHash else row.phraseHash) then Match
      else if !isPin then WrongPhrase
      else if n % 10 == 0 then Locked(now + 3600 * if n == 10 then 1 else if n == 20 then 4 else 24)
      else WrongPin(10 - n % 10)
  {
    RowIsItsWrongPins(r, start, events);
    hide After, WrongPins, LockEnd, Miscount;
    MiscountVerdict(After(r, events), now);
  }

  /** Counter and lock are functions of the wrong PINs since the last reset. */
  lemma RowIsItsWrongPins(r: Row, start: int, events: seq<Event>)
    requires Fresh(r) && Clock(start, events)
    ensures After(r, events).attempts == |WrongPins(r, events)|
    ensures After(r, events).lockedUntil == LockEnd(WrongPins(r, events))
  {
    RunsOnSchedule(r, start, events);
    hide After, WrongPins, LastReset, LockEnd, HoursBefore;
  }

  lemma MiscountVerdict(r: Row, now: int)
    ensures
      var n := r.attempts + 1;
      Miscount(r, now).1 ==
      if n % 10 == 0 then Locked(now + 3600 * if n == 10 then 1 else if n == 20 then 4 else 24)
      else WrongPin(10 - n % 10)
  {
  }

  /**
   * A lock is what was reported: before its end every PIN is told that end and nothing changes, and from
   * its end on the right PIN, and no other, is a match.
   */
  lemma LockHoldsAsReported(r: Row, auth: Bytes, now: int, pin: Bytes, at: int)
    requires Verify(r, auth, true, now).1.Locked?
    ensures
      var (t, verdict) := Verify(r, auth, true, now);
      && t.pinHash == r.pinHash && now < verdict.until
      && (at < verdict.until ==> Verify(t, pin, true, at) == (t, Locked(verdict.until)))
      && (at >= verdict.until ==> (Verify(t, pin, true, at).1 == Match <==> pin == r.pinHash))
  {
  }

  /** Short of a lock nothing stands in the way: the right PIN is a match at any later time. */
  lemma WrongPinDoesNotLock(r: Row, auth: Bytes, now: int, pin: Bytes, at: int)
    requires Verify(r, auth, true, now).1.WrongPin? && now <= at
    ensures Verify(Verify(r, auth, true, now).0, pin, true, at).1 == Match <==> pin == r.pinHash
  {
  }

  /** In the first five hours and `days` days after a reset at most twenty guesses and ten a day are spent. */
  lemma GuessBudget(r: Row, start: int, events: seq<Event>, days: nat)
    requires Fresh(r) && Clock(start, events)
    requires forall i :: 0 <= i < |WrongPins(r, events)| ==>
      WrongPins(r, events)[i] < LastReset(r, start, events) + (5 + 24 * days) * HOUR
    ensures |WrongPins(r, events)| <= 20 + 10 * days
  {
    if |WrongPins(r, events)| > 20 + 10 * days {
      GuessesAreSpaced(r, start, events, days + 2);
      HoursInClosedForm(days + 2);
    }
  }

  /** Attempts, by PIN or by phrase, none of which has the right secret. */
  ghost predicate AllWrong(r: Row, events: seq<Event>) {
    forall i :: 0 <= i < |events| ==> IsWrong(r, events[i])
  }

  predicate IsWrong(r: Row, e: Event) {
    e.Tried? && e.auth != if e.isPin then r.pinHash else r.phraseHash
  }

  /** How many of the attempts are by PIN. */
  function Pins(events: seq<Event>): nat {
    if events == [] then 0
    else
      var e := events[|events| - 1];
      if e.Tried? && e.isPin then Pins(events[..|events| - 1]) + 1 else Pins(events[..|events| - 1])
  }

  function VerdictOn(r: Row, e: Event): Verdict
    requires e.Tried?
  {
    Verify(r, e.auth, e.isPin, e.at).1
  }

  /** Until the decade is full the row counts the PINs and nothing else, however phrases come in between. */
  lemma {:induction false} WrongAttemptsCount(r: Row, now: int, events: seq<Event>)
    requires AllWrong(r, events) && Clock(now, events) && !LockedAt(r, now)
    requires r.attempts % 10 != 0 && Pins(events) < 10 - r.attempts % 10
    ensures After(r, events) == r.(attempts := r.attempts + Pins(events))
  {
    if events != [] {
      var init, e := events[..|events| - 1], events[|events| - 1];
      assert forall i :: 0 <= i < |init| ==> init[i] == events[i];
      WrongAttemptsCount(r, now, init);
      assert IsWrong(r, e) && now <= e.at;
      if e.isPin {
        DecadeEnds(r.attempts, Pins(events));
      }
    }
  }

  /**
   * `remaining` is exact: among whatever wrong attempts follow its report, that many by PIN bring the
   * next lock, each one before reports one fewer, and a wrong phrase in between changes nothing.
   */
  lemma RemainingIsExact(r: Row, first: Event, more: seq<Event>)
    requires Counted(r, first) && VerdictOn(r, first).WrongPin?
    requires more != [] && AllWrong(r, more) && Clock(first.at, more)
    requires Pins(more[..|more| - 1]) < VerdictOn(r, first).remaining
    ensures
      var told := Apply(r, first);
      var left := VerdictOn(r, first).remaining;
      var before := After(told, more[..|more| - 1]);
      var last := more[|more| - 1];
      && before == told.(attempts := told.attempts + Pins(more[..|more| - 1]))
      && VerdictOn(before, last) ==
         if !last.isPin then WrongPhrase
         else if Pins(more) < left then WrongPin(left - Pins(more))
         else Locked(last.at + LockoutHours(r.attempts / 10 + 1) * HOUR)
  {
    hide Miscount, After, Pins;
    var told := Apply(r, first);
    var init, last := more[..|more| - 1], more[|more| - 1];
    assert forall i :: 0 <= i < |init| ==> init[i] == more[i];
    ToldRemaining(r, first);
    WrongAttemptsCount(told, first.at, init);
    assert IsWrong(r, last) && first.at <= last.at;
    var before := After(told, init);
    MiscountAfter(before, told.attempts, Pins(init), last.at);
    assert Pins(more) == if last.isPin then Pins(init) + 1 else Pins(init) by { PinsSnoc(more); }
  }

  lemma ToldRemaining(r: Row, e: Event)
    requires Counted(r, e) && VerdictOn(r, e).WrongPin?
    ensures
      var told := Apply(r, e);
      && told == r.(attempts := r.attempts + 1) && told.attempts % 10 != 0
      && VerdictOn(r, e).remaining == 10 - told.attempts % 10
  {
  }

  lemma PinsSnoc(events: seq<Event>)
    requires events != [] && events[|events| - 1].Tried?
    ensures Pins(events) == Pins(events[..|events| - 1]) + if events[|events| - 1].isPin then 1 else 0
  {
  }

  /** The next miscount of a row that stood at `a` when its remaining number was told, `k` PINs ago. */
  lemma MiscountAfter(r: Row, a: nat, k: nat, now: int)
    requires a % 10 != 0 && k < 10 - a % 10 && r.attempts == a + k
    ensures
      var left := 10 - a % 10;
      Miscount(r, now).1 ==
      if k + 1 < left then WrongPin(left - (k + 1)) else Locked(now + LockoutHours((a - 1) / 10 + 1) * HOUR)
  {
    DecadeEnds(a, k + 1);
  }

  /** `m` more attempts complete the decade exactly when they use up what is left of it. */
  lemma DecadeEnds(a: nat, m: nat)
    requires a % 10 != 0 && 0 < m <= 10 - a % 10
    ensures (a + m) % 10 == 0 <==> m == 10 - a % 10
    ensures m < 10 - a % 10 ==> 10 - (a + m) % 10 == 10 - a % 10 - m
    ensures m == 10 - a % 10 ==> (a + m) / 10 == (a - 1) / 10 + 1
  {
  }
}
