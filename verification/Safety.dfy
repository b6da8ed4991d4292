/** What the safety number is computed from: the members' keys, sorted and framed by their lengths. */
module Safety {
  type Byte = b: nat | b < 256
  type Bytes = seq<Byte>

  const U32 := 0x1_0000_0000

  /** Lexicographic order of byte strings. */
  predicate Leq(a: Bytes, b: Bytes) {
    a == [] || (b != [] && (a[0] < b[0] || (a[0] == b[0] && Leq(a[1..], b[1..]))))
  }

  function Insert(k: Bytes, s: seq<Bytes>): seq<Bytes> {
    if s == [] || Leq(k, s[0]) then [k] + s else [s[0]] + Insert(k, s[1..])
  }

  function Sorted(keys: seq<Bytes>): seq<Bytes> {
    if keys == [] then [] else Insert(keys[0], Sorted(keys[1..]))
  }

  /** A 32-bit big-endian length; the cast drops what does not fit. */
  function Prefix(n: nat): (p: Bytes)
    ensures |p| == 4
  {
    var m := n % U32;
    [m / 0x100_0000, m / 0x1_0000 % 256, m / 256 % 256, m % 256]
  }

  function Frame(keys: seq<Bytes>): Bytes {
    if keys == [] then [] else Prefix(|keys[0]|) + keys[0] + Frame(keys[1..])
  }

  /** The bytes fed to the hash. */
  method HashInput(keys: seq<Bytes>) returns (fed: Bytes)
    ensures fed == Frame(Sorted(keys))
  {
    var sorted := Sorted(keys);
    fed := [];
    for i := 0 to |sorted|
      invariant fed + Frame(sorted[i..]) == Frame(sorted)
    {
      fed := fed + Prefix(|sorted[i]|);
      fed := fed + sorted[i];
    }
  }

  // ---- sorting -------------------------------------------------------------------------------

  ghost predicate Ascending(s: seq<Bytes>) {
    forall i, j :: 0 <= i < j < |s| ==> Leq(s[i], s[j])
  }

  lemma {:induction false} LeqTotal(a: Bytes, b: Bytes)
    ensures Leq(a, b) || Leq(b, a)
    ensures Leq(a, b) && Leq(b, a) ==> a == b
  {
    if a != [] && b != [] && a[0] == b[0] {
      LeqTotal(a[1..], b[1..]);
      assert a == [a[0]] + a[1..] && b == [b[0]] + b[1..];
    }
  }

  lemma {:induction false} LeqTransitive(a: Bytes, b: Bytes, c: Bytes)
    requires Leq(a, b) && Leq(b, c)
    ensures Leq(a, c)
  {
    if a != [] && a[0] == b[0] && b[0] == c[0] {
      LeqTransitive(a[1..], b[1..], c[1..]);
    }
  }

  lemma AscendingCons(x: Bytes, s: seq<Bytes>)
    requires Ascending(s) && forall k :: k in s ==> Leq(x, k)
    ensures Ascending([x] + s)
  {
    forall i, j | 0 <= i < j < |s| + 1
      ensures Leq(([x] + s)[i], ([x] + s)[j])
    {
      assert ([x] + s)[j] == s[j - 1] && s[j - 1] in s;
    }
  }

  lemma {:induction false} InsertElements(k: Bytes, s: seq<Bytes>)
    ensures multiset(Insert(k, s)) == multiset(s) + multiset{k}
    ensures forall x :: x in Insert(k, s) <==> x == k || x in s
  {
    if s != [] && !Leq(k, s[0]) {
      InsertElements(k, s[1..]);
      assert s == [s[0]] + s[1..];
    }
  }

  lemma {:induction false} InsertSorts(k: Bytes, s: seq<Bytes>)
    requires Ascending(s)
    ensures Ascending(Insert(k, s))
  {
    if s == [] || Leq(k, s[0]) {
      forall x | x in s
        ensures Leq(k, x)
      {
        var j :| 0 <= j < |s| && s[j] == x;
        if j > 0 {
          LeqTransitive(k, s[0], s[j]);
        }
      }
      AscendingCons(k, s);
    } else {
      LeqTotal(k, s[0]);
      InsertSorts(k, s[1..]);
      InsertElements(k, s[1..]);
      hide Insert, Leq;
      AscendingCons(s[0], Insert(k, s[1..]));
    }
  }

  lemma {:induction false} SortedIsSorted(keys: seq<Bytes>)
    ensures Ascending(Sorted(keys)) && multiset(Sorted(keys)) == multiset(keys)
  {
    if keys != [] {
      SortedIsSorted(keys[1..]);
      InsertSorts(keys[0], Sorted(keys[1..]));
      InsertElements(keys[0], Sorted(keys[1..]));
      assert keys == [keys[0]] + keys[1..];
    }
  }

  lemma SameLeast(s: seq<Bytes>, t: seq<Bytes>)
    requires Ascending(s) && Ascending(t) && multiset(s) == multiset(t) && s != [] && t != []
    ensures s[0] == t[0]
  {
    assert s[0] in multiset(t) && t[0] in multiset(s);
    var i :| 0 <= i < |t| && t[i] == s[0];
    var j :| 0 <= j < |s| && s[j] == t[0];
    assert i == 0 || Leq(t[0], s[0]);
    assert j == 0 || Leq(s[0], t[0]);
    LeqTotal(s[0], t[0]);
  }

  lemma WithoutFirst(s: seq<Bytes>)
    requires s != []
    ensures multiset(s[1..]) == multiset(s) - multiset{s[0]}
  {
    assert s == [s[0]] + s[1..];
  }

  /** There is only one way to arrange the same keys in ascending order. */
  lemma {:induction false} AscendingUnique(s: seq<Bytes>, t: seq<Bytes>)
    requires Ascending(s) && Ascending(t) && multiset(s) == multiset(t)
    ensures s == t
  {
    assert |multiset(s)| == |s| && |multiset(t)| == |t|;
    if s != [] {
      SameLeast(s, t);
      WithoutFirst(s);
      WithoutFirst(t);
      AscendingUnique(s[1..], t[1..]);
      assert s == [s[0]] + s[1..] && t == [t[0]] + t[1..];
    }
  }

  // ---- framing -------------------------------------------------------------------------------

  ghost predicate ShortKeys(keys: seq<Bytes>) {
    forall i :: 0 <= i < |keys| ==> |keys[i]| < U32
  }

  lemma PrefixInjective(m: nat, n: nat)
    requires m < U32 && n < U32 && Prefix(m) == Prefix(n)
    ensures m == n
  {
    FourDigits(m);
    FourDigits(n);
  }

  function ReadPrefix(p: Bytes): nat
    requires |p| == 4
  {
    var (a: nat, b: nat, c: nat, d: nat) := (p[0], p[1], p[2], p[3]);
    a * 0x100_0000 + b * 0x1_0000 + c * 256 + d
  }

  lemma FourDigits(n: nat)
    requires n < U32
    ensures ReadPrefix(Prefix(n)) == n
  {
    assert n % U32 == n;
    assert n / 0x1_0000 / 256 == n / 0x100_0000;
    assert n / 256 / 256 == n / 0x1_0000;
  }

  /** No key can pass for part of another: the framed bytes determine the list. */
  lemma {:induction false} FrameInjective(s: seq<Bytes>, t: seq<Bytes>)
    requires ShortKeys(s) && ShortKeys(t) && Frame(s) == Frame(t)
    ensures s == t
  {
    if s != [] && t != [] {
      var f := Frame(s);
      assert f[..4] == Prefix(|s[0]|) && f[..4] == Prefix(|t[0]|);
      PrefixInjective(|s[0]|, |t[0]|);
      var n := 4 + |s[0]|;
      assert f[4..n] == s[0] && f[4..n] == t[0];
      assert f[n..] == Frame(s[1..]) && f[n..] == Frame(t[1..]);
      FrameInjective(s[1..], t[1..]);
      assert s == [s[0]] + s[1..] && t == [t[0]] + t[1..];
    }
  }

  /**
   * Sides that see the same keys, in whatever order each lists them, hash the same bytes; with keys
   * whose lengths fit 32 bits, sides that hash the same bytes see the same keys.
   */
  lemma SafetyInputAgrees(mine: seq<Bytes>, theirs: seq<Bytes>)
    ensures multiset(mine) == multiset(theirs) ==> Frame(Sorted(mine)) == Frame(Sorted(theirs))
    ensures ShortKeys(mine) && ShortKeys(theirs) && Frame(Sorted(mine)) == Frame(Sorted(theirs)) ==>
      multiset(mine) == multiset(theirs)
  {
    SortedIsSorted(mine);
    SortedIsSorted(theirs);
    if multiset(mine) == multiset(theirs) {
      AscendingUnique(Sorted(mine), Sorted(theirs));
    }
    if ShortKeys(mine) && ShortKeys(theirs) && Frame(Sorted(mine)) == Frame(Sorted(theirs)) {
      SortedShort(mine);
      SortedShort(theirs);
      FrameInjective(Sorted(mine), Sorted(theirs));
    }
  }

  /** A length that does not fit 32 bits breaks the frame: one key then reads as two. */
  lemma LongKeysCollide(k: Bytes)
    requires |k| == U32 - 4
    ensures
      var one, two := [Prefix(|k|) + k], [[], k];
      multiset(one) != multiset(two) && Frame(Sorted(one)) == Frame(Sorted(two))
  {
    var long := Prefix(|k|) + k;
    var none: Bytes := [];
    var one, two := [long], [none, k];
    assert Sorted(one[1..]) == [] && Sorted(one) == one;
    assert two[1..] == [k] && [k][1..] == [] && Sorted([k]) == [k];
    assert Sorted(two) == two;
    assert Prefix(|long|) == Prefix(0);
    assert Frame(one[1..]) == [] && Frame([k][1..]) == [];
    assert Frame(one) == Prefix(0) + long;
    assert Frame(two) == Prefix(0) + (Prefix(|k|) + k);
    assert none in multiset(two) && none !in multiset(one);
  }

  lemma SortedShort(keys: seq<Bytes>)
    requires ShortKeys(keys)
    ensures ShortKeys(Sorted(keys))
  {
    SortedIsSorted(keys);
    forall i | 0 <= i < |Sorted(keys)|
      ensures |Sorted(keys)[i]| < U32
    {
      assert Sorted(keys)[i] in multiset(keys);
    }
  }
}
