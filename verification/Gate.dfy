/** The two gates on queue creation: proof-of-work challenges and single-use attestation tokens. */
module Gate {
  import opened Base
  import opened Wire

  // ---- proof of work -----------------------------------------------------------------------

  type Challenge = nat

  const DIFFICULTY: nat := 16

  /** `zeroBits` is the number of leading zero bits the solution's digest has. */
  datatype Solution = Solution(challenge: Challenge, zeroBits: nat)

  datatype Pow = Pow(outstanding: map<Challenge, nat>, order: seq<Challenge>)

  const NO_POW := Pow(map[], [])

  /** Drops the oldest challenges until there is room for one more. */
  function Evict(p: Pow): Pow
    decreases |p.order|
  {
    if |p.order| >= MAX_OUTSTANDING_POW_CHALLENGES
    then Evict(Pow(p.outstanding - {p.order[0]}, p.order[1..]))
    else p
  }

  function Issue(p: Pow, c: Challenge): Pow {
    var e := Evict(p);
    Pow(e.outstanding[c := DIFFICULTY], e.order + [c])
  }

  /** A presented challenge is used up whether or not the solution is good. */
  function Redeem(p: Pow, s: Solution): (Pow, bool) {
    if s.challenge !in p.outstanding then (p, false)
    else (p.(outstanding := p.outstanding - {s.challenge}), s.zeroBits >= p.outstanding[s.challenge])
  }

  datatype PowOp = Issued(c: Challenge) | Presented(s: Solution)

  function PowDo(p: Pow, op: PowOp): (Pow, bool) {
    match op
    case Issued(c) => (Issue(p, c), true)
    case Presented(s) => Redeem(p, s)
  }

  function PowRun(ops: seq<PowOp>): Pow {
    if ops == [] then NO_POW else PowDo(PowRun(ops[..|ops| - 1]), ops[|ops| - 1]).0
  }

  /** The challenges issued so far, oldest first. */
  function AllIssued(ops: seq<PowOp>): seq<Challenge> {
    if ops == [] then []
    else
      var op, rest := ops[|ops| - 1], AllIssued(ops[..|ops| - 1]);
      if op.Issued? then rest + [op.c] else rest
  }

  function LastFew<T>(s: seq<T>, n: nat): seq<T> {
    if |s| <= n then s else s[|s| - n..]
  }

  /** Whether the challenge has been presented since it was last issued. */
  predicate UsedUp(ops: seq<PowOp>, c: Challenge) {
    if ops == [] then false
    else
      match ops[|ops| - 1]
      case Issued(d) => d != c && UsedUp(ops[..|ops| - 1], c)
      case Presented(s) => s.challenge == c || UsedUp(ops[..|ops| - 1], c)
  }

  /** Random challenges never repeat. */
  ghost predicate FreshChallenges(ops: seq<PowOp>) {
    Distinct(AllIssued(ops))
  }

  lemma {:induction false} EvictKeepsWindow(p: Pow)
    requires |p.order| <= MAX_OUTSTANDING_POW_CHALLENGES && Distinct(p.order)
    ensures Evict(p).order == LastFew(p.order, MAX_OUTSTANDING_POW_CHALLENGES - 1)
    ensures forall c :: c in Evict(p).outstanding <==> c in p.outstanding && (c in p.order ==> c in Evict(p).order)
    ensures forall c :: c in Evict(p).outstanding ==> Evict(p).outstanding[c] == p.outstanding[c]
  {
    if |p.order| == MAX_OUTSTANDING_POW_CHALLENGES {
      var q := Pow(p.outstanding - {p.order[0]}, p.order[1..]);
      assert Evict(p) == Evict(q) == q;
      assert p.order == [p.order[0]] + q.order;
    }
  }

  lemma FreshPrefix(ops: seq<PowOp>)
    requires ops != [] && FreshChallenges(ops)
    ensures FreshChallenges(ops[..|ops| - 1])
    ensures ops[|ops| - 1].Issued? ==> ops[|ops| - 1].c !in AllIssued(ops[..|ops| - 1])
  {
    var before, all := AllIssued(ops[..|ops| - 1]), AllIssued(ops);
    assert forall i :: 0 <= i < |before| ==> all[i] == before[i];
    if ops[|ops| - 1].Issued? {
      assert all[|before|] == ops[|ops| - 1].c;
    }
  }

  /**
   * In every run the redeemable challenges are exactly the most recently issued ones, up to the
   * cap, minus those already presented.
   */
  lemma {:induction false} PowWindow(ops: seq<PowOp>)
    requires FreshChallenges(ops)
    ensures
      var p, window := PowRun(ops), LastFew(AllIssued(ops), MAX_OUTSTANDING_POW_CHALLENGES);
      && p.order == window
      && (forall c :: c in p.outstanding <==> c in window && !UsedUp(ops, c))
      && (forall c :: c in p.outstanding ==> p.outstanding[c] == DIFFICULTY)
  {
    if ops != [] {
      var init, op := ops[..|ops| - 1], ops[|ops| - 1];
      FreshPrefix(ops);
      PowWindow(init);
      var p := PowRun(init);
      hide Issue, LastFew, FreshChallenges;
      match op
      case Presented(s) =>
      case Issued(c) =>
        WindowDistinct(AllIssued(init));
        IssueSlides(p, c);
        WindowStep(AllIssued(init), c);
    }
  }

  /** Issuing slides the window by one: the oldest challenge goes if the window is full. */
  lemma IssueSlides(p: Pow, c: Challenge)
    requires |p.order| <= MAX_OUTSTANDING_POW_CHALLENGES && Distinct(p.order)
    requires forall d :: d in p.outstanding ==> d in p.order
    ensures
      var kept, t := LastFew(p.order, MAX_OUTSTANDING_POW_CHALLENGES - 1), Issue(p, c);
      && t.order == kept + [c]
      && (forall d :: d in t.outstanding <==> d == c || (d in p.outstanding && d in kept))
      && (forall d :: d in t.outstanding ==> t.outstanding[d] == if d == c then DIFFICULTY else p.outstanding[d])
  {
    EvictKeepsWindow(p);
    hide Evict, LastFew;
  }

  lemma WindowDistinct(issued: seq<Challenge>)
    requires Distinct(issued)
    ensures Distinct(LastFew(issued, MAX_OUTSTANDING_POW_CHALLENGES))
    ensures |LastFew(issued, MAX_OUTSTANDING_POW_CHALLENGES)| <= MAX_OUTSTANDING_POW_CHALLENGES
  {
  }

  lemma WindowStep(issued: seq<Challenge>, c: Challenge)
    ensures
      var window := LastFew(issued, MAX_OUTSTANDING_POW_CHALLENGES);
      LastFew(issued + [c], MAX_OUTSTANDING_POW_CHALLENGES) ==
      LastFew(window, MAX_OUTSTANDING_POW_CHALLENGES - 1) + [c]
  {
  }

  lemma {:induction false} KeysWithin(m: map<Challenge, nat>, order: seq<Challenge>)
    requires forall c :: c in m ==> c in order
    ensures |m| <= |order|
  {
    if order == [] {
      assert m.Keys == {};
    } else {
      var last, init := order[|order| - 1], order[..|order| - 1];
      assert order == init + [last];
      KeysWithin(m - {last}, init);
      assert m.Keys <= (m - {last}).Keys + {last};
    }
  }

  /** The table never exceeds its cap. */
  lemma PowBounded(ops: seq<PowOp>)
    requires FreshChallenges(ops)
    ensures |PowRun(ops).outstanding| <= MAX_OUTSTANDING_POW_CHALLENGES
    ensures |PowRun(ops).order| <= MAX_OUTSTANDING_POW_CHALLENGES
  {
    PowWindow(ops);
    KeysWithin(PowRun(ops).outstanding, PowRun(ops).order);
  }

  /** Once presented, a challenge stays used up for the rest of the run. */
  lemma {:induction false} UsedUpForever(ops: seq<PowOp>, i: nat, c: Challenge)
    requires FreshChallenges(ops) && i < |ops|
    requires ops[i].Presented? && ops[i].s.challenge == c && c in AllIssued(ops[..i])
    ensures UsedUp(ops, c) && c in AllIssued(ops)
  {
    var init := ops[..|ops| - 1];
    FreshPrefix(ops);
    if i < |init| {
      assert init[..i] == ops[..i];
      UsedUpForever(init, i, c);
    } else {
      assert init == ops[..i];
    }
  }

  /** No challenge is redeemed twice. */
  lemma RedeemedOnce(ops: seq<PowOp>, i: nat, s: Solution)
    requires FreshChallenges(ops) && i < |ops|
    requires ops[i].Presented? && ops[i].s.challenge == s.challenge && PowDo(PowRun(ops[..i]), ops[i]).1
    ensures !Redeem(PowRun(ops), s).1
  {
    FreshPrefixOf(ops, i);
    PowWindow(ops[..i]);
    UsedUpForever(ops, i, s.challenge);
    PowWindow(ops);
  }

  /**
   * In every run a solution is accepted exactly if its challenge is among the last 10,000 issued, has not
   * been presented since, and the digest has sixteen leading zero bits.
   */
  lemma SolutionAcceptedExactly(ops: seq<PowOp>, s: Solution)
    requires FreshChallenges(ops)
    ensures Redeem(PowRun(ops), s).1 <==>
      s.challenge in LastFew(AllIssued(ops), 10_000) && !UsedUp(ops, s.challenge) && s.zeroBits >= 16
    ensures s.challenge !in Redeem(PowRun(ops), s).0.outstanding
  {
    PowWindow(ops);
  }

  lemma {:induction false} FreshPrefixOf(ops: seq<PowOp>, i: nat)
    requires FreshChallenges(ops) && i <= |ops|
    ensures FreshChallenges(ops[..i])
  {
    if i == |ops| {
      assert ops[..i] == ops;
    } else {
      FreshPrefix(ops);
      FreshPrefixOf(ops[..|ops| - 1], i);
      assert ops[..|ops| - 1][..i] == ops[..i];
    }
  }

  // ---- attestation tokens ------------------------------------------------------------------

  type Nonce = nat

  /** `signer` is the key the signature verifies under. */
  datatype Token = Token(nonce: Nonce, expiresAt: int, signer: Wire.Key)

  type Spent = map<Nonce, int>

  function Prune(spent: Spent, now: int): Spent {
    map n | n in spent && spent[n] > now :: spent[n]
  }

  /** The gate: off without a key; otherwise a token must be present, signed, unexpired, unspent. */
  function Attest(spent: Spent, key: Option<Wire.Key>, token: Option<Token>, now: int): (Spent, bool) {
    if key.None? then (spent, true)
    else if token.None? || now >= token.value.expiresAt || token.value.signer != key.value then (spent, false)
    else
      var live := Prune(spent, now);
      if token.value.nonce in live then (live, false)
      else (live[token.value.nonce := token.value.expiresAt], true)
  }

  datatype Check = Check(key: Option<Wire.Key>, token: Option<Token>, now: int)

  function SpentAfter(checks: seq<Check>): Spent {
    if checks == [] then map[]
    else
      var c := checks[|checks| - 1];
      Attest(SpentAfter(checks[..|checks| - 1]), c.key, c.token, c.now).0
  }

  /** The `i`-th check let this token through a gate that was on. */
  predicate AcceptedAt(checks: seq<Check>, i: nat, nonce: Nonce, expiry: int)
    requires i < |checks|
  {
    var c := checks[i];
    && c.key.Some? && c.token.Some?
    && c.token.value.nonce == nonce && c.token.value.expiresAt == expiry
    && Attest(SpentAfter(checks[..i]), c.key, c.token, c.now).1
  }

  ghost predicate ClockForward(checks: seq<Check>) {
    forall i, j :: 0 <= i <= j < |checks| ==> checks[i].now <= checks[j].now
  }

  /** An accepted token stays on record until its expiry has passed. */
  lemma {:induction false} OnRecordUntilExpiry(checks: seq<Check>, i: nat, nonce: Nonce, expiry: int)
    requires ClockForward(checks) && i < |checks| && AcceptedAt(checks, i, nonce, expiry)
    ensures
      var spent := SpentAfter(checks);
      (nonce in spent && spent[nonce] == expiry) || checks[|checks| - 1].now >= expiry
  {
    var init, c := checks[..|checks| - 1], checks[|checks| - 1];
    if i < |init| {
      assert init[..i] == checks[..i];
      OnRecordUntilExpiry(init, i, nonce, expiry);
    }
  }

  /** Each token is accepted at most once, despite the pruning of expired nonces. */
  lemma TokenSpentOnce(checks: seq<Check>, i: nat, j: nat, nonce: Nonce, expiry: int)
    requires ClockForward(checks) && i < j < |checks|
    requires AcceptedAt(checks, i, nonce, expiry)
    ensures !AcceptedAt(checks, j, nonce, expiry)
  {
    var before := checks[..j];
    assert before[..i] == checks[..i];
    OnRecordUntilExpiry(before, i, nonce, expiry);
  }

  /** Whatever the table holds was accepted by an earlier check. */
  lemma {:induction false} RecordedWasAccepted(checks: seq<Check>, nonce: Nonce)
    requires nonce in SpentAfter(checks)
    ensures exists i :: 0 <= i < |checks| && AcceptedAt(checks, i, nonce, SpentAfter(checks)[nonce])
  {
    var last := |checks| - 1;
    var init, expiry := checks[..last], SpentAfter(checks)[nonce];
    if nonce in SpentAfter(init) && SpentAfter(init)[nonce] == expiry {
      RecordedWasAccepted(init, nonce);
      var i :| 0 <= i < |init| && AcceptedAt(init, i, nonce, expiry);
      assert init[..i] == checks[..i];
      assert AcceptedAt(checks, i, nonce, expiry);
    } else {
      assert AcceptedAt(checks, last, nonce, expiry);
    }
  }

  /** The check gets as far as pruning: the gate is on and the token is signed and unexpired. */
  predicate ReachesPruning(c: Check) {
    c.key.Some? && c.token.Some? && c.now < c.token.value.expiresAt && c.token.value.signer == c.key.value
  }

  /**
   * After every check that reaches the pruning step the table is exactly the set of accepted
   * tokens that have not expired yet.
   */
  lemma TableIsLiveTokens(checks: seq<Check>, nonce: Nonce, expiry: int)
    requires ClockForward(checks) && checks != [] && ReachesPruning(checks[|checks| - 1])
    ensures
      var spent := SpentAfter(checks);
      (nonce in spent && spent[nonce] == expiry) <==>
      expiry > checks[|checks| - 1].now && exists i :: 0 <= i < |checks| && AcceptedAt(checks, i, nonce, expiry)
  {
    var spent := SpentAfter(checks);
    if nonce in spent && spent[nonce] == expiry {
      RecordedWasAccepted(checks, nonce);
    }
    if i :| 0 <= i < |checks| && AcceptedAt(checks, i, nonce, expiry) {
      OnRecordUntilExpiry(checks, i, nonce, expiry);
    }
  }

  /** An earlier check let this nonce through with a token that is still unexpired. */
  predicate SpentLive(checks: seq<Check>, nonce: Nonce, now: int) {
    exists i :: 0 <= i < |checks| && checks[i].token.Some?
      && AcceptedAt(checks, i, nonce, checks[i].token.value.expiresAt) && now < checks[i].token.value.expiresAt
  }

  /**
   * In every run the gate lets a request through exactly if it is off, or the request brings a token that
   * is signed under the configured key, unexpired, and whose nonce no unexpired token has spent.
   */
  lemma TokenAcceptedExactly(checks: seq<Check>, c: Check)
    requires ClockForward(checks + [c])
    ensures Attest(SpentAfter(checks), c.key, c.token, c.now).1 <==>
      c.key.None?
      || (c.token.Some? && c.token.value.signer == c.key.value && c.now < c.token.value.expiresAt
          && !SpentLive(checks, c.token.value.nonce, c.now))
  {
    assert forall i :: 0 <= i < |checks| ==> checks[i] == (checks + [c])[i];
    assert (checks + [c])[|checks|] == c;
    if c.token.Some? {
      RecordIsLive(checks, c.token.value.nonce, c.now);
    }
    hide SpentLive, SpentAfter;
  }

  lemma RecordIsLive(checks: seq<Check>, nonce: Nonce, now: int)
    requires ClockForward(checks) && (checks != [] ==> checks[|checks| - 1].now <= now)
    ensures nonce in Prune(SpentAfter(checks), now) <==> SpentLive(checks, nonce, now)
  {
    if nonce in Prune(SpentAfter(checks), now) {
      RecordedWasAccepted(checks, nonce);
    }
    if SpentLive(checks, nonce, now) {
      var i :| 0 <= i < |checks| && checks[i].token.Some?
        && AcceptedAt(checks, i, nonce, checks[i].token.value.expiresAt) && now < checks[i].token.value.expiresAt;
      OnRecordUntilExpiry(checks, i, nonce, checks[i].token.value.expiresAt);
    }
  }
}
