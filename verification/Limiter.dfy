/** Fixed-window rate limiting: the directory's limiter and the relay's per-queue window. */
module Limiter {
  import opened Base

  /** One minute on the monotonic clock, in nanoseconds. */
  const MINUTE: int := 60_000_000_000

  datatype Window = Window(count: nat, started: int)

  /** One check-and-count against a window; the second component is the decision. */
  function Bump(w: Window, now: int, limit: nat): (Window, bool) {
    var w1 := if now - w.started >= MINUTE then Window(0, now) else w;
    if w1.count >= limit then (w1, false) else (w1.(count := w1.count + 1), true)
  }

  datatype Bucket = Caller | Phone | Ip
  datatype Key = Key(bucket: Bucket, id: nat)
  datatype Call = Call(key: Key, now: int, limit: nat)

  type Windows = map<Key, Window>

  function Admit(ws: Windows, c: Call): (Windows, bool) {
    var (w, ok) := Bump(if c.key in ws then ws[c.key] else Window(0, c.now), c.now, c.limit);
    (ws[c.key := w], ok)
  }

  /** The process-wide limiter. */
  class RateLimiter {
    var windows: Windows

    constructor ()
      ensures windows == map[]
    {
      windows := map[];
    }

    method BumpKey(bucket: Bucket, id: nat, limit: nat, now: int) returns (ok: bool)
      modifies this
      ensures (windows, ok) == Admit(old(windows), Call(Key(bucket, id), now, limit))
    {
      var key := Key(bucket, id);
      if key !in windows {
        windows := windows[key := Window(0, now)];
      }
      var w := windows[key];
      if now - w.started >= MINUTE {
        w := Window(0, now);
        windows := windows[key := w];
      }
      if w.count >= limit {
        assert windows == old(windows)[key := w];
        return false;
      }
      windows := windows[key := w.(count := w.count + 1)];
      assert windows == old(windows)[key := windows[key]];
      return true;
    }
  }

  // ---- whole runs -------------------------------------------------------------------------

  /** The limiter's state after a run of calls. */
  function After(calls: seq<Call>): Windows {
    if calls == [] then map[]
    else Admit(After(calls[..|calls| - 1]), calls[|calls| - 1]).0
  }

  /** The times at which the run admitted `key`. */
  function Admissions(calls: seq<Call>, key: Key): seq<int> {
    if calls == [] then []
    else
      var c, init := calls[|calls| - 1], calls[..|calls| - 1];
      if c.key == key && Admit(After(init), c).1 then Admissions(init, key) + [c.now]
      else Admissions(init, key)
  }

  /** The calls a run makes under one key. */
  function OnlyKey(calls: seq<Call>, key: Key): seq<Call> {
    if calls == [] then []
    else
      var c, rest := calls[|calls| - 1], OnlyKey(calls[..|calls| - 1], key);
      if c.key == key then rest + [c] else rest
  }

  /** How many of `ts` lie in the half-open interval [lo, hi). */
  function Between(ts: seq<int>, lo: int, hi: int): nat {
    if ts == [] then 0
    else Between(ts[..|ts| - 1], lo, hi) + if lo <= ts[|ts| - 1] < hi then 1 else 0
  }

  ghost predicate Monotone(calls: seq<Call>) {
    forall i, j :: 0 <= i <= j < |calls| ==> calls[i].now <= calls[j].now
  }

  ghost predicate LimitsAtMost(calls: seq<Call>, key: Key, most: nat) {
    forall i :: 0 <= i < |calls| && calls[i].key == key ==> calls[i].limit <= most
  }

  lemma BetweenSnoc(ts: seq<int>, t: int, lo: int, hi: int)
    ensures Between(ts + [t], lo, hi) == Between(ts, lo, hi) + if lo <= t < hi then 1 else 0
  {
    assert (ts + [t])[..|ts|] == ts;
  }

  lemma {:induction false} BetweenMonotone(ts: seq<int>, lo: int, hi: int, lo': int, hi': int)
    requires lo' <= lo && hi <= hi'
    ensures Between(ts, lo, hi) <= Between(ts, lo', hi')
  {
    if ts != [] {
      BetweenMonotone(ts[..|ts| - 1], lo, hi, lo', hi');
    }
  }

  lemma {:induction false} BetweenSplit(ts: seq<int>, lo: int, mid: int, hi: int)
    requires lo <= mid <= hi
    ensures Between(ts, lo, hi) == Between(ts, lo, mid) + Between(ts, mid, hi)
  {
    if ts != [] {
      BetweenSplit(ts[..|ts| - 1], lo, mid, hi);
    }
  }

  lemma {:induction false} BetweenPast(ts: seq<int>, lo: int, hi: int)
    requires forall i :: 0 <= i < |ts| ==> ts[i] < lo
    ensures Between(ts, lo, hi) == 0
  {
    if ts != [] {
      BetweenPast(ts[..|ts| - 1], lo, hi);
    }
  }

  /** What the current window knows about the admissions so far. */
  ghost predicate WindowInv(ts: seq<int>, w: Window, most: nat, clock: int) {
    && w.started <= clock
    && w.count <= most
    && (forall i :: 0 <= i < |ts| ==> ts[i] <= clock && ts[i] < w.started + MINUTE)
    && (forall hi :: clock < hi ==> Between(ts, w.started, hi) == w.count)
    && (forall lo :: w.started - MINUTE < lo <= w.started ==> Between(ts, lo, w.started) <= most)
    && (forall lo, hi :: hi <= lo + MINUTE ==> Between(ts, lo, hi) <= 2 * most)
  }

  /** One call keeps the window invariant. */
  lemma BumpKeepsInv(ts: seq<int>, w: Window, most: nat, clock: int, now: int, limit: nat)
    requires WindowInv(ts, w, most, clock) && clock <= now && limit <= most
    ensures
      var (w', ok) := Bump(w, now, limit);
      WindowInv(if ok then ts + [now] else ts, w', most, now)
  {
    hide Between;
    var (w', ok) := Bump(w, now, limit);
    var w1 := if now - w.started >= MINUTE then Window(0, now) else w;
    assert WindowInv(ts, w1, most, now) by {
      if w1 != w {
        ResetKeepsInv(ts, w, most, clock, now);
      }
    }
    if ok {
      var ts' := ts + [now];
      forall hi | now < hi
        ensures Between(ts', w'.started, hi) == w'.count
      {
        BetweenSnoc(ts, now, w'.started, hi);
      }
      forall lo | w'.started - MINUTE < lo <= w'.started
        ensures Between(ts', lo, w'.started) <= most
      {
        BetweenSnoc(ts, now, lo, w'.started);
      }
      forall lo, hi | hi <= lo + MINUTE
        ensures Between(ts', lo, hi) <= 2 * most
      {
        BetweenSnoc(ts, now, lo, hi);
        if lo <= now < hi {
          SpanBound(ts, w1, most, now, lo, hi);
        }
      }
    }
  }

  /** Re-opening an expired window keeps the invariant: the closed one becomes the past. */
  lemma ResetKeepsInv(ts: seq<int>, w: Window, most: nat, clock: int, now: int)
    requires WindowInv(ts, w, most, clock) && clock <= now && now - w.started >= MINUTE
    ensures WindowInv(ts, Window(0, now), most, now)
  {
    forall hi | now < hi
      ensures Between(ts, now, hi) == 0
    {
      BetweenPast(ts, now, hi);
    }
    forall lo | now - MINUTE < lo <= now
      ensures Between(ts, lo, now) <= most
    {
      BetweenMonotone(ts, lo, now, w.started, now + 1);
    }
  }

  /** An interval holding `now` reaches at most the current window and the one before it. */
  lemma SpanBound(ts: seq<int>, w: Window, most: nat, now: int, lo: int, hi: int)
    requires WindowInv(ts, w, most, now) && lo <= now < hi <= lo + MINUTE
    ensures Between(ts, lo, hi) <= most + w.count
  {
    assert Between(ts, w.started, hi) == w.count;
    if lo <= w.started {
      BetweenSplit(ts, lo, w.started, hi);
    } else {
      BetweenMonotone(ts, lo, hi, w.started, hi);
    }
  }

  /** The invariant holds of every key after every run. */
  lemma {:induction false} RunKeepsInv(calls: seq<Call>, key: Key, most: nat)
    requires Monotone(calls) && LimitsAtMost(calls, key, most) && calls != []
    ensures
      var clock := calls[|calls| - 1].now;
      if key in After(calls) then WindowInv(Admissions(calls, key), After(calls)[key], most, clock)
      else Admissions(calls, key) == []
  {
    var c, init := calls[|calls| - 1], calls[..|calls| - 1];
    assert forall i :: 0 <= i < |init| ==> init[i] == calls[i];
    if init != [] {
      RunKeepsInv(init, key, most);
    }
    if c.key == key {
      var clock := if init == [] then c.now else init[|init| - 1].now;
      var w := if key in After(init) then After(init)[key] else Window(0, c.now);
      if key in After(init) {
        BumpKeepsInv(Admissions(init, key), w, most, clock, c.now, c.limit);
      } else {
        BumpKeepsInv([], w, most, c.now, c.now, c.limit);
      }
    }
  }

  /** Any half-open minute admits at most twice the largest limit passed for the key. */
  lemma AdmissionBound(calls: seq<Call>, key: Key, most: nat, lo: int)
    requires Monotone(calls) && LimitsAtMost(calls, key, most)
    ensures Between(Admissions(calls, key), lo, lo + MINUTE) <= 2 * most
  {
    if calls != [] {
      RunKeepsInv(calls, key, most);
    }
  }

  /** When the key's current window opened: at its first call, and again at the first call a minute on. */
  function OpenedAt(calls: seq<Call>, key: Key): Option<int> {
    if calls == [] then None
    else
      var c, before := calls[|calls| - 1], OpenedAt(calls[..|calls| - 1], key);
      if c.key == key then Some(Reopened(before, c.now)) else before
  }

  function Reopened(since: Option<int>, now: int): int {
    if since.None? || now - since.value >= MINUTE then now else since.value
  }

  lemma {:induction false} WindowsOpen(calls: seq<Call>, key: Key)
    ensures key in After(calls) <==> OpenedAt(calls, key).Some?
    ensures key in After(calls) ==> OpenedAt(calls, key) == Some(After(calls)[key].started)
  {
    if calls != [] {
      WindowsOpen(calls[..|calls| - 1], key);
    }
  }

  function LargestLimit(calls: seq<Call>): nat {
    if calls == [] then 0
    else
      var rest, limit := LargestLimit(calls[..|calls| - 1]), calls[|calls| - 1].limit;
      if rest < limit then limit else rest
  }

  lemma {:induction false} LargestIsMost(calls: seq<Call>, key: Key, most: nat)
    requires LargestLimit(calls) <= most
    ensures LimitsAtMost(calls, key, most)
  {
    if calls != [] {
      var init := calls[..|calls| - 1];
      LargestIsMost(init, key, most);
      assert forall i :: 0 <= i < |init| ==> calls[i] == init[i];
    }
  }

  /**
   * In every run a call is admitted exactly if fewer calls than its limit have been admitted for its key
   * since the key's window opened, where a first call and one a minute on open it anew.
   */
  lemma AdmittedExactly(calls: seq<Call>, c: Call)
    requires Monotone(calls) && (calls != [] ==> calls[|calls| - 1].now <= c.now)
    ensures Admit(After(calls), c).1 <==>
      Between(Admissions(calls, c.key), Reopened(OpenedAt(calls, c.key), c.now), c.now + 1) < c.limit
  {
    hide After, Admissions, WindowInv, Bump, Between, OpenedAt, Monotone;
    WindowsOpen(calls, c.key);
    AdmissionsCounted(calls, c.key, c.now, c.limit);
    NewKeyCounts(c);
  }

  lemma AdmissionsCounted(calls: seq<Call>, key: Key, now: int, limit: nat)
    requires Monotone(calls) && (calls != [] ==> calls[|calls| - 1].now <= now)
    ensures
      if key in After(calls) then
        var w := After(calls)[key];
        Bump(w, now, limit).1 <==> Between(Admissions(calls, key), Reopened(Some(w.started), now), now + 1) < limit
      else Admissions(calls, key) == []
  {
    if calls != [] {
      var most := LargestLimit(calls);
      LargestIsMost(calls, key, most);
      hide After, Admissions, WindowInv, Bump, Between, LargestLimit, LimitsAtMost;
      RunKeepsInv(calls, key, most);
      if key in After(calls) {
        WindowCounts(Admissions(calls, key), After(calls)[key], most, calls[|calls| - 1].now, now, limit);
      }
    }
  }

  /** A window stops a call exactly when as many as the limit have passed since it opened. */
  lemma WindowCounts(ts: seq<int>, w: Window, most: nat, clock: int, now: int, limit: nat)
    requires WindowInv(ts, w, most, clock) && clock <= now
    ensures Bump(w, now, limit).1 <==>
      Between(ts, if now - w.started >= MINUTE then now else w.started, now + 1) < limit
  {
    if now - w.started >= MINUTE {
      BetweenPast(ts, now, now + 1);
    }
  }

  lemma NewKeyCounts(c: Call)
    ensures Bump(Window(0, c.now), c.now, c.limit).1 <==> Between([], c.now, c.now + 1) < c.limit
  {
  }

  /** Calls under other keys, in any bucket, change nothing for this key. */
  lemma {:induction false} KeyIsolation(calls: seq<Call>, key: Key)
    ensures Admissions(calls, key) == Admissions(OnlyKey(calls, key), key)
    ensures key in After(calls) <==> key in After(OnlyKey(calls, key))
    ensures key in After(calls) ==> After(calls)[key] == After(OnlyKey(calls, key))[key]
  {
    if calls != [] {
      var c, init := calls[|calls| - 1], calls[..|calls| - 1];
      KeyIsolation(init, key);
      var own := OnlyKey(init, key);
      if c.key == key {
        assert OnlyKey(calls, key) == own + [c];
        assert (own + [c])[..|own|] == own;
      }
    }
  }

  // ---- the documented bound ------------------------------------------------------------------

  /** One window asked at the given times: where it ends up and when it let a call pass. */
  function Passed(w: Window, times: seq<int>, limit: nat): (Window, seq<int>) {
    if times == [] then (w, [])
    else
      var now := times[|times| - 1];
      var (w1, ts) := Passed(w, times[..|times| - 1], limit);
      var (w2, ok) := Bump(w1, now, limit);
      (w2, if ok then ts + [now] else ts)
  }

  lemma PassedSnoc(w: Window, times: seq<int>, now: int, limit: nat)
    ensures
      var (w1, ts) := Passed(w, times, limit);
      var (w2, ok) := Bump(w1, now, limit);
      Passed(w, times + [now], limit) == (w2, if ok then ts + [now] else ts)
  {
    assert (times + [now])[..|times|] == times;
  }

  /** `n` calls at one instant all pass while the window is open and has room for them. */
  lemma {:induction false} BurstPasses(w: Window, times: seq<int>, now: int, limit: nat, n: nat)
    requires
      var w1 := Passed(w, times, limit).0;
      now - w1.started < MINUTE && w1.count + n <= limit
    ensures
      var (w1, ts) := Passed(w, times, limit);
      Passed(w, times + Copies(now, n), limit) == (w1.(count := w1.count + n), ts + Copies(now, n))
  {
    hide Passed;
    var ts := Passed(w, times, limit).1;
    if n == 0 {
      AppendCopy(times, now, 0);
      AppendCopy(ts, now, 0);
    } else {
      BurstPasses(w, times, now, limit, n - 1);
      PassedSnoc(w, times + Copies(now, n - 1), now, limit);
      AppendCopy(times, now, n - 1);
      AppendCopy(ts, now, n - 1);
    }
  }

  lemma {:induction false} BetweenAll(ts: seq<int>, lo: int, hi: int)
    requires forall i :: 0 <= i < |ts| ==> lo <= ts[i] < hi
    ensures Between(ts, lo, hi) == |ts|
  {
    if ts != [] {
      BetweenAll(ts[..|ts| - 1], lo, hi);
    }
  }

  /** A full burst just before the window of a queue made at `t` ends, and another as it ends. */
  function TwoBursts(t: int, limit: nat): seq<int> {
    Copies(t + MINUTE - 1, limit) + Copies(t + MINUTE, limit)
  }

  /** Twice the limit passes within a nanosecond. */
  lemma RollingMinuteFails(t: int, limit: nat)
    requires limit > 0
    ensures Passed(Window(0, t), TwoBursts(t, limit), limit).1 == TwoBursts(t, limit)
    ensures Between(TwoBursts(t, limit), t + MINUTE - 1, t + MINUTE + 1) == 2 * limit
  {
    var w, late, end := Window(0, t), t + MINUTE - 1, t + MINUTE;
    var first := Copies(late, limit);
    FirstBurst(w, late, limit);
    BetweenAll(TwoBursts(t, limit), late, end + 1);
    hide Passed, Copies, Between;
    PassedSnoc(w, first, end, limit);
    BurstPasses(w, first + [end], end, limit, limit - 1);
    PrependCopy(first, end, limit - 1);
  }

  lemma FirstBurst(w: Window, now: int, limit: nat)
    requires w.count == 0 && now - w.started < MINUTE
    ensures Passed(w, Copies(now, limit), limit) == (w.(count := limit), Copies(now, limit))
  {
    assert [] + Copies(now, limit) == Copies(now, limit);
    BurstPasses(w, [], now, limit, limit);
  }

  /** How many calls passed in the minute that ends with `now`. */
  function LastMinute(ts: seq<int>, now: int): nat {
    Between(ts, now - MINUTE + 1, now + 1)
  }

  function Opened(w: Window, now: int): Window {
    if now - w.started >= MINUTE then Window(0, now) else w
  }

  /**
   * Against the documented limit per rolling minute the window errs on one side only: it refuses no
   * call that the minute up to now leaves room for, and a call it lets pass exceeds the documented
   * limit exactly if the calls since the window opened and those of the minute's part before it fill
   * the limit together.
   */
  lemma RollingVerdict(ts: seq<int>, w: Window, limit: nat, clock: int, now: int)
    requires WindowInv(ts, w, limit, clock) && clock <= now
    ensures
      var w1, passes := Opened(w, now), Bump(w, now, limit).1;
      && (!passes ==> LastMinute(ts, now) >= limit)
      && (passes ==>
            (LastMinute(ts, now) >= limit <==> Between(ts, now - MINUTE + 1, w1.started) >= limit - w1.count))
  {
    var w1 := Opened(w, now);
    if w1 != w {
      ResetKeepsInv(ts, w, limit, clock, now);
    }
    assert Between(ts, w1.started, now + 1) == w1.count;
    BetweenSplit(ts, now - MINUTE + 1, w1.started, now + 1);
  }
}
