/** Usernames: nickname rules, discriminator slots, and the text form of a handle and back. */
module Handles {
  import opened Base

  const MIN_NICKNAME_LEN := 2
  const MAX_NICKNAME_LEN := 32
  const MIN_WIDTH := 2
  const MAX_WIDTH := 9
  const U32_MAX := 0xFFFF_FFFF
  const INT_MAX := 0x7FFF_FFFF

  datatype Error = BadLength | BadChar(c: char)

  /** A nickname with its number, as stored for one user. */
  datatype Handle = Handle(nickname: string, discriminator: nat)

  // ---- nicknames -----------------------------------------------------------------------------

  predicate Allowed(c: char) {
    'a' <= c <= 'z' || 'A' <= c <= 'Z' || '0' <= c <= '9' || c == '_' || c == '-' || c == '.'
  }

  function Utf8Size(c: char): nat {
    var n := c as int;
    if n < 0x80 then 1 else if n < 0x800 then 2 else if n < 0x1_0000 then 3 else 4
  }

  /** The length the nickname rule measures is that of the encoded bytes. */
  function Utf8Length(s: string): nat {
    if s == [] then 0 else Utf8Length(s[..|s| - 1]) + Utf8Size(s[|s| - 1])
  }

  function FirstDisallowed(s: string): Option<char> {
    if s == [] then None else if !Allowed(s[0]) then Some(s[0]) else FirstDisallowed(s[1..])
  }

  function ValidateNickname(s: string): Option<Error> {
    if Utf8Length(s) < MIN_NICKNAME_LEN || Utf8Length(s) > MAX_NICKNAME_LEN then Some(BadLength)
    else if FirstDisallowed(s).Some? then Some(BadChar(FirstDisallowed(s).value))
    else None
  }

  ghost predicate AllAllowed(s: string) {
    forall i :: 0 <= i < |s| ==> Allowed(s[i])
  }

  lemma {:induction false} AsciiLength(s: string)
    requires AllAllowed(s)
    ensures Utf8Length(s) == |s|
  {
    if s != [] {
      AsciiLength(s[..|s| - 1]);
    }
  }

  lemma {:induction false} DisallowedFound(s: string)
    ensures FirstDisallowed(s) == None <==> AllAllowed(s)
    ensures FirstDisallowed(s).Some? ==> FirstDisallowed(s).value in s && !Allowed(FirstDisallowed(s).value)
  {
    if s != [] {
      DisallowedFound(s[1..]);
      assert s == [s[0]] + s[1..];
    }
  }

  /** Accepted nicknames are exactly the 2 to 32 character strings over the allowlist. */
  lemma NicknameRule(s: string)
    ensures ValidateNickname(s) == None <==> 2 <= |s| <= 32 && AllAllowed(s)
  {
    DisallowedFound(s);
    if AllAllowed(s) {
      AsciiLength(s);
    }
  }

  // ---- discriminator slots -------------------------------------------------------------------

  function Pow10(n: nat): (p: nat)
    ensures p >= 1
  {
    if n == 0 then 1 else 10 * Pow10(n - 1)
  }

  /** The highest number of a width, in 32-bit arithmetic that saturates before the subtraction. */
  function SlotCount(width: nat): nat {
    (if Pow10(width) > U32_MAX then U32_MAX else Pow10(width)) - 1
  }

  lemma Pow10Table()
    ensures Pow10(2) == 100 && Pow10(9) == 1_000_000_000
  {
    assert Pow10(4) == 10_000;
    assert Pow10(7) == 10_000_000;
  }

  lemma {:induction false} Pow10Grows(m: nat, n: nat)
    requires m <= n
    ensures Pow10(m) <= Pow10(n)
    decreases n
  {
    if m < n {
      Pow10Grows(m, n - 1);
    }
  }

  /** Nothing saturates within the widths in use. */
  lemma SlotCountIs(width: nat)
    requires width <= MAX_WIDTH
    ensures SlotCount(width) == Pow10(width) - 1 && Pow10(width) <= 1_000_000_000
  {
    Pow10Grows(width, MAX_WIDTH);
    Pow10Table();
  }

  /** Every number from 1 to `max` is in use. */
  ghost predicate Full(taken: set<nat>, max: nat) {
    forall v :: 1 <= v <= max ==> v in taken
  }

  /** `slot` is the least positive number not in use. */
  ghost predicate LeastFree(taken: set<nat>, slot: nat) {
    slot >= 1 && slot !in taken && Full(taken, slot - 1)
  }

  lemma LeastFreeUnique(taken: set<nat>, a: nat, b: nat)
    requires LeastFree(taken, a) && LeastFree(taken, b)
    ensures a == b
  {
  }

  function FreeFrom(taken: set<nat>, v: nat, max: nat): Option<nat>
    decreases max + 1 - v
  {
    if v > max then None else if v !in taken then Some(v) else FreeFrom(taken, v + 1, max)
  }

  function FirstFreeSlot(taken: set<nat>, width: nat): Option<nat> {
    FreeFrom(taken, 1, SlotCount(width))
  }

  lemma {:induction false} FreeFromIs(taken: set<nat>, v: nat, max: nat)
    requires v >= 1 && Full(taken, v - 1)
    ensures
      var r := FreeFrom(taken, v, max);
      if v > max || Full(taken, max) then r == None else r.Some? && LeastFree(taken, r.value) && r.value <= max
    decreases max + 1 - v
  {
    if v <= max && v in taken {
      FreeFromIs(taken, v + 1, max);
    }
  }

  /** What a claim must be given: the least free number, widening only as far as that number needs. */
  ghost predicate Assigned(taken: set<nat>, width: nat, slot: nat, wider: nat) {
    && LeastFree(taken, slot)
    && slot < Pow10(wider)
    && width <= wider <= MAX_WIDTH
    && (wider > width ==> Pow10(wider - 1) <= slot)
  }

  lemma AssignedUnique(taken: set<nat>, width: nat, s1: nat, w1: nat, s2: nat, w2: nat)
    requires Assigned(taken, width, s1, w1) && Assigned(taken, width, s2, w2)
    ensures s1 == s2 && w1 == w2
  {
    LeastFreeUnique(taken, s1, s2);
    if w1 < w2 {
      Pow10Grows(w1, w2 - 1);
    } else if w2 < w1 {
      Pow10Grows(w2, w1 - 1);
    }
  }

  /** The slot and width a claim gets: the first width, from the current one on, with a free number. */
  function Assign(taken: set<nat>, width: nat): Option<(nat, nat)>
    decreases if width < MAX_WIDTH then MAX_WIDTH - width else 0
  {
    match FirstFreeSlot(taken, width)
    case Some(slot) => Some((slot, width))
    case None => if width < MAX_WIDTH then Assign(taken, width + 1) else None
  }

  /** The claim succeeds unless all of the nine-digit numbers are in use. */
  lemma {:induction false} AssignIs(taken: set<nat>, width: nat)
    requires width <= MAX_WIDTH
    ensures
      var r := Assign(taken, width);
      if Full(taken, Pow10(MAX_WIDTH) - 1) then r == None
      else r.Some? && Assigned(taken, width, r.value.0, r.value.1)
    decreases MAX_WIDTH - width
  {
    SlotCountIs(width);
    Pow10Grows(width, MAX_WIDTH);
    FreeFromIs(taken, 1, SlotCount(width));
    if FirstFreeSlot(taken, width).None? && width < MAX_WIDTH {
      AssignIs(taken, width + 1);
    }
  }

  /** The widening loop of a claim. */
  method AssignSlot(taken: set<nat>, width: nat) returns (r: Option<(nat, nat)>)
    ensures r == Assign(taken, width)
  {
    var w := width;
    while true
      invariant width <= w && Assign(taken, width) == Assign(taken, w)
      decreases if w < MAX_WIDTH then MAX_WIDTH - w else 0
    {
      var found := FirstFreeSlot(taken, w);
      match found
      case Some(slot) => return Some((slot, w));
      case None =>
        if w < MAX_WIDTH {
          w := w + 1;
        } else {
          return None;
        }
    }
  }

  // ---- the text form -------------------------------------------------------------------------

  function DigitChar(d: nat): char
    requires d < 10
  {
    (d + '0' as int) as char
  }

  function Decimal(v: nat): (s: string)
    ensures |s| >= 1 && forall i :: 0 <= i < |s| ==> IsDigit(s[i])
  {
    if v < 10 then [DigitChar(v)] else Decimal(v / 10) + [DigitChar(v % 10)]
  }

  function RenderDiscriminator(v: nat, width: nat): (s: string)
    ensures |s| >= 1 && forall i :: 0 <= i < |s| ==> IsDigit(s[i])
  {
    var s := Decimal(v);
    if |s| >= width then s else Copies('0', width - |s|) + s
  }

  function FormatHandle(nickname: string, v: nat, width: nat): string {
    nickname + "#" + RenderDiscriminator(v, width)
  }

  function SplitHash(s: string): (parts: seq<string>)
    ensures |parts| >= 1
  {
    if s == [] then [[]]
    else
      var rest := SplitHash(s[1..]);
      if s[0] == '#' then [[]] + rest else [[s[0]] + rest[0]] + rest[1..]
  }

  function Value(s: string): nat
    requires forall i :: 0 <= i < |s| ==> IsDigit(s[i])
  {
    if s == [] then 0
    else
      var last := s[|s| - 1];
      assert IsDigit(last);
      10 * Value(s[..|s| - 1]) + (last as int - '0' as int)
  }

  /** A signed 32-bit decimal, or nothing. */
  function ToInt(s: string): Option<int> {
    var signed := s != [] && (s[0] == '-' || s[0] == '+');
    var digits := if signed then s[1..] else s;
    if digits == [] || exists i :: 0 <= i < |digits| && !IsDigit(digits[i]) then None
    else
      var n: int := Value(digits);
      var v := if signed && s[0] == '-' then -n else n;
      if -INT_MAX - 1 <= v <= INT_MAX then Some(v) else None
  }

  predicate Blank(s: string) {
    forall i :: 0 <= i < |s| ==> s[i] == ' ' || '\t' <= s[i] <= '\r'
  }

  /** What the search field makes of the text a user typed or pasted. */
  function ParseHandle(s: string): Option<(string, int)> {
    var parts := SplitHash(s);
    if |parts| < 2 || ToInt(parts[1]).None? || Blank(parts[0]) then None
    else Some((parts[0], ToInt(parts[1]).value))
  }

  lemma {:induction false} ValueOfDecimal(v: nat)
    ensures Value(Decimal(v)) == v
  {
    if v >= 10 {
      ValueOfDecimal(v / 10);
      var s := Decimal(v / 10) + [DigitChar(v % 10)];
      assert s[..|s| - 1] == Decimal(v / 10);
    } else {
      assert Decimal(v)[..0] == [];
    }
  }

  lemma {:induction false} ValueOfPadded(zeros: nat, s: string)
    requires forall i :: 0 <= i < |s| ==> IsDigit(s[i])
    ensures Value(Copies('0', zeros) + s) == Value(s)
  {
    var p := Copies('0', zeros) + s;
    if s != [] {
      assert p[..|p| - 1] == Copies('0', zeros) + s[..|s| - 1];
      ValueOfPadded(zeros, s[..|s| - 1]);
    } else if zeros > 0 {
      assert p[..|p| - 1] == Copies('0', zeros - 1) + s;
      ValueOfPadded(zeros - 1, s);
    }
  }

  lemma RenderedValue(v: nat, width: nat)
    ensures Value(RenderDiscriminator(v, width)) == v
  {
    ValueOfDecimal(v);
    var s := Decimal(v);
    if |s| < width {
      ValueOfPadded(width - |s|, s);
    }
  }

  lemma {:induction false} DecimalLength(v: nat, n: nat)
    requires n >= 1
    ensures |Decimal(v)| <= n <==> v < Pow10(n)
  {
    if v >= 10 && n > 1 {
      DecimalLength(v / 10, n - 1);
    }
  }

  /** A number that fits its width is written in exactly that many digits. */
  lemma RenderedWidth(v: nat, width: nat)
    requires width >= 1 && v < Pow10(width)
    ensures |RenderDiscriminator(v, width)| == width
  {
    DecimalLength(v, width);
  }

  lemma {:induction false} SplitPlain(s: string)
    requires '#' !in s
    ensures SplitHash(s) == [s]
  {
    if s != [] {
      SplitPlain(s[1..]);
      assert s == [s[0]] + s[1..];
    }
  }

  lemma {:induction false} SplitAtHash(s: string, t: string)
    requires '#' !in s
    ensures SplitHash(s + "#" + t) == [s] + SplitHash(t)
  {
    var whole := s + "#" + t;
    if s == [] {
      assert whole[1..] == t;
    } else {
      assert whole[1..] == s[1..] + "#" + t;
      SplitAtHash(s[1..], t);
      assert s == [s[0]] + s[1..];
    }
  }

  /** Whatever the width a handle was written at, it is read back as the same nickname and number. */
  lemma HandleRoundTrip(nickname: string, v: nat, width: nat)
    requires ValidateNickname(nickname) == None && v <= INT_MAX
    ensures ParseHandle(FormatHandle(nickname, v, width)) == Some((nickname, v))
  {
    NicknameRule(nickname);
    var digits := RenderDiscriminator(v, width);
    SplitAtHash(nickname, digits);
    SplitPlain(digits);
    RenderedValue(v, width);
    assert IsDigit(digits[0]);
    assert Allowed(nickname[0]);
    assert !Blank(nickname);
  }
}
