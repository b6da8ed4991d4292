/** Reading a mailbox for commits: which log positions a list of messages still carries, in order. */
module Mail {
  import opened Base
  import opened Wire
  import opened Relay

  /** The log position a commit is for. */
  function Position(e0: nat, x: Stored): Option<nat> {
    var c := x.envelope.content;
    if c.Commit? && c.epoch >= e0 then Some(c.epoch - e0) else None
  }

  /** A member that has merged `n` commits reads one more message; a gap yields None. */
  function Advance1(e0: nat, n: nat, x: Stored): Option<nat> {
    match Position(e0, x)
    case None => Some(n)
    case Some(j) => if j < n then Some(n) else if j == n then Some(n + 1) else None
  }

  /** How far a member that has merged `n` commits gets by reading `xs` in order. */
  function Scan(e0: nat, xs: seq<Stored>, n: nat): Option<nat> {
    if xs == [] then Some(n)
    else
      match Scan(e0, xs[..|xs| - 1], n)
      case None => None
      case Some(h) => Advance1(e0, h, xs[|xs| - 1])
  }

  lemma ScanSnoc(e0: nat, xs: seq<Stored>, x: Stored, n: nat)
    ensures Scan(e0, xs + [x], n) ==
            match Scan(e0, xs, n) { case None => None case Some(h) => Advance1(e0, h, x) }
  {
    assert (xs + [x])[..|xs|] == xs;
  }

  /** Reading from the front instead of from the back. */
  lemma {:induction false} ScanCons(e0: nat, x: Stored, xs: seq<Stored>, n: nat)
    ensures Scan(e0, [x] + xs, n) ==
            match Advance1(e0, n, x) { case None => None case Some(h) => Scan(e0, xs, h) }
  {
    if xs == [] {
      assert [x] + xs == [] + [x];
      ScanSnoc(e0, [], x, n);
    } else {
      var init, last := xs[..|xs| - 1], xs[|xs| - 1];
      assert [x] + xs == ([x] + init) + [last];
      ScanSnoc(e0, [x] + init, last, n);
      ScanCons(e0, x, init, n);
    }
  }

  lemma {:induction false} ScanGrows(e0: nat, xs: seq<Stored>, n: nat)
    ensures Scan(e0, xs, n).Some? ==> Scan(e0, xs, n).value >= n
  {
    if xs != [] {
      ScanGrows(e0, xs[..|xs| - 1], n);
    }
  }

  /** Having merged more already does not change how far the same messages lead. */
  lemma {:induction false} ScanFurther(e0: nat, xs: seq<Stored>, n: nat, m: nat)
    requires Scan(e0, xs, n).Some? && n <= m <= Scan(e0, xs, n).value
    ensures Scan(e0, xs, m) == Scan(e0, xs, n)
  {
    if xs != [] {
      var init := xs[..|xs| - 1];
      var h := Scan(e0, init, n).value;
      if m <= h {
        ScanFurther(e0, init, n, m);
      } else {
        ScanAtEnd(e0, init, n, m);
      }
    }
  }

  /** Messages that lead to `h` or less hold nothing beyond it. */
  lemma {:induction false} ScanAtEnd(e0: nat, xs: seq<Stored>, n: nat, m: nat)
    requires Scan(e0, xs, n).Some? && Scan(e0, xs, n).value <= m
    ensures Scan(e0, xs, m) == Some(m)
  {
    if xs != [] {
      ScanGrows(e0, xs[..|xs| - 1], n);
      ScanAtEnd(e0, xs[..|xs| - 1], n, m);
    }
  }

  /** Copies of the next commit lead one further; copies of anything else change nothing. */
  lemma {:induction false} ScanCopies(e0: nat, xs: seq<Stored>, x: Stored, k: nat, n: nat)
    requires Scan(e0, xs, n).Some?
    requires Position(e0, x) == None || Position(e0, x) == Some(Scan(e0, xs, n).value)
    ensures Scan(e0, xs + Copies(x, k), n) ==
            if Position(e0, x).Some? && k > 0 then Some(Scan(e0, xs, n).value + 1) else Scan(e0, xs, n)
  {
    AppendCopy(xs, x, 0);
    if k > 0 {
      ScanCopies(e0, xs, x, k - 1, n);
      AppendCopy(xs, x, k - 1);
      ScanSnoc(e0, xs + Copies(x, k - 1), x, n);
    }
  }

  /** Acking messages already passed leaves the rest readable. */
  lemma {:induction false} ScanWithout(e0: nat, xs: seq<Stored>, id: MessageId, n: nat)
    requires forall i :: 0 <= i < |xs| && xs[i].messageId == id ==>
               Position(e0, xs[i]).None? || Position(e0, xs[i]).value < n
    ensures Scan(e0, Without(xs, id), n) == Scan(e0, xs, n)
  {
    if xs != [] {
      var init, x := xs[..|xs| - 1], xs[|xs| - 1];
      ScanWithout(e0, init, id, n);
      ScanGrows(e0, init, n);
      ScanSnoc(e0, Without(init, id), x, n);
    }
  }

  /** `ps` picks out the commits for positions n, n+1, ..., h-1, in list order. */
  ghost predicate Carries(e0: nat, xs: seq<Stored>, n: nat, h: nat, ps: seq<nat>) {
    && n <= h && |ps| == h - n
    && (forall k :: 0 <= k < |ps| ==> ps[k] < |xs| && Position(e0, xs[ps[k]]) == Some(n + k))
    && (forall j, k :: 0 <= j < k < |ps| ==> ps[j] < ps[k])
  }

  /** A successful reading exhibits every commit it passed, in order. */
  lemma {:induction false} ScanCarries(e0: nat, xs: seq<Stored>, n: nat, h: nat) returns (ps: seq<nat>)
    requires Scan(e0, xs, n) == Some(h)
    ensures Carries(e0, xs, n, h, ps)
  {
    if xs == [] {
      ps := [];
    } else {
      var init := xs[..|xs| - 1];
      var g := Scan(e0, init, n).value;
      ps := ScanCarries(e0, init, n, g);
      if g < h {
        ps := ps + [|init|];
      }
    }
  }

  lemma {:induction false} WithoutIn(xs: seq<Stored>, id: MessageId, x: Stored)
    ensures x in Without(xs, id) <==> x in xs && x.messageId != id
  {
    if xs != [] {
      assert xs == xs[..|xs| - 1] + [xs[|xs| - 1]];
      WithoutIn(xs[..|xs| - 1], id, x);
    }
  }
}
