/** PINs and recovery phrases as text: what a user may type for the phrase that was shown once. */
module Phrases {
  import opened Base

  predicate ValidPin(pin: string) {
    4 <= |pin| <= 6 && forall i :: 0 <= i < |pin| ==> IsDigit(pin[i])
  }

  predicate White(c: char) {
    var n := c as int;
    || 0x09 <= n <= 0x0D || n == 0x20 || n == 0x85 || n == 0xA0 || n == 0x1680 || 0x2000 <= n <= 0x200A
    || n == 0x2028 || n == 0x2029 || n == 0x202F || n == 0x205F || n == 0x3000
  }

  function LowerChar(c: char): char {
    if 'A' <= c <= 'Z' then ((c as int) + 32) as char else c
  }

  function Lower(w: string): (l: string)
    ensures |l| == |w|
  {
    seq(|w|, i requires 0 <= i < |w| => LowerChar(w[i]))
  }

  function Lowered(words: seq<string>): (ls: seq<string>)
    ensures |ls| == |words|
  {
    seq(|words|, i requires 0 <= i < |words| => Lower(words[i]))
  }

  /** The words of `s`, where `cur` has already been read of the first. */
  function Split(s: string, cur: string): seq<string> {
    if s == [] then if cur == [] then [] else [cur]
    else if !White(s[0]) then Split(s[1..], cur + [s[0]])
    else if cur == [] then Split(s[1..], [])
    else [cur] + Split(s[1..], [])
  }

  function Words(s: string): seq<string> {
    Split(s, [])
  }

  function Join(words: seq<string>): string {
    if words == [] then [] else if |words| == 1 then words[0] else words[0] + " " + Join(words[1..])
  }

  function NormalizePhrase(s: string): string {
    Join(Lowered(Words(s)))
  }

  ghost predicate AllWhite(s: string) {
    forall i :: 0 <= i < |s| ==> White(s[i])
  }

  ghost predicate WordOk(w: string) {
    w != [] && forall i :: 0 <= i < |w| ==> !White(w[i])
  }

  ghost predicate WordsOk(words: seq<string>) {
    forall i :: 0 <= i < |words| ==> WordOk(words[i])
  }

  // ---- splitting -----------------------------------------------------------------------------

  lemma {:induction false} SkipSpace(pad: string, rest: string)
    requires AllWhite(pad)
    ensures Split(pad + rest, []) == Split(rest, [])
  {
    if pad == [] {
      assert pad + rest == rest;
    } else {
      assert (pad + rest)[1..] == pad[1..] + rest;
      SkipSpace(pad[1..], rest);
    }
  }

  lemma {:induction false} ReadWord(w: string, rest: string, cur: string)
    requires forall i :: 0 <= i < |w| ==> !White(w[i])
    ensures Split(w + rest, cur) == Split(rest, cur + w)
  {
    if w == [] {
      assert w + rest == rest && cur + w == cur;
    } else {
      assert (w + rest)[1..] == w[1..] + rest;
      assert cur + [w[0]] + w[1..] == cur + w;
      ReadWord(w[1..], rest, cur + [w[0]]);
    }
  }

  /** One word and the space after it; only the last word may stand without any. */
  lemma ReadPiece(w: string, pad: string, rest: string)
    requires WordOk(w) && AllWhite(pad) && (pad == [] ==> rest == [])
    ensures Words(w + pad + rest) == [w] + Words(rest)
  {
    assert w + pad + rest == w + (pad + rest);
    assert [] + w == w;
    ReadWord(w, pad + rest, []);
    if pad != [] {
      assert (pad + rest)[1..] == pad[1..] + rest;
      SkipSpace(pad[1..], rest);
    }
  }

  lemma {:induction false} SplitGivesWords(s: string, cur: string)
    requires forall i :: 0 <= i < |cur| ==> !White(cur[i])
    ensures WordsOk(Split(s, cur))
  {
    if s != [] {
      if !White(s[0]) {
        SplitGivesWords(s[1..], cur + [s[0]]);
      } else {
        SplitGivesWords(s[1..], []);
      }
    }
  }

  lemma {:induction false} WordsOfJoin(words: seq<string>)
    requires WordsOk(words)
    ensures Words(Join(words)) == words
  {
    if |words| == 1 {
      ReadPiece(words[0], [], []);
      assert words[0] + [] + [] == words[0];
    } else if |words| > 1 {
      WordsOfJoin(words[1..]);
      ReadPiece(words[0], " ", Join(words[1..]));
    }
  }

  lemma LoweredOk(words: seq<string>)
    requires WordsOk(words)
    ensures WordsOk(Lowered(words))
  {
    forall i | 0 <= i < |words|
      ensures WordOk(Lower(words[i]))
    {
      assert WordOk(words[i]);
    }
  }

  /** A text normalizes to a phrase exactly when it has the phrase's words, in order, in any case. */
  lemma NormalizesTo(s: string, words: seq<string>)
    requires WordsOk(words)
    ensures NormalizePhrase(s) == Join(words) <==> Lowered(Words(s)) == words
  {
    SplitGivesWords(s, []);
    LoweredOk(Words(s));
    WordsOfJoin(Lowered(Words(s)));
    WordsOfJoin(words);
  }

  /** Words each followed by its own run of spaces. */
  function Spell(pieces: seq<(string, string)>): string {
    if pieces == [] then [] else pieces[0].0 + pieces[0].1 + Spell(pieces[1..])
  }

  ghost predicate SpellingOk(pieces: seq<(string, string)>) {
    forall i :: 0 <= i < |pieces| ==>
      WordOk(pieces[i].0) && AllWhite(pieces[i].1) && (pieces[i].1 == [] ==> i == |pieces| - 1)
  }

  lemma {:induction false} WordsOfSpelling(pieces: seq<(string, string)>)
    requires SpellingOk(pieces)
    ensures |Words(Spell(pieces))| == |pieces|
    ensures forall i :: 0 <= i < |pieces| ==> Words(Spell(pieces))[i] == pieces[i].0
  {
    if pieces != [] {
      var rest := pieces[1..];
      assert SpellingOk(rest) && WordOk(pieces[0].0) && AllWhite(pieces[0].1) && (pieces[0].1 == [] ==> rest == []);
      hide SpellingOk, WordOk, AllWhite, Words;
      WordsOfSpelling(rest);
      ReadPiece(pieces[0].0, pieces[0].1, Spell(rest));
      assert Spell(pieces) == pieces[0].0 + pieces[0].1 + Spell(rest);
      assert forall i :: 0 < i < |pieces| ==> pieces[i] == rest[i - 1];
    }
  }

  /** However the words are spaced out and capitalized, the same phrase is understood. */
  lemma RespelledPhrase(lead: string, pieces: seq<(string, string)>, words: seq<string>)
    requires AllWhite(lead) && SpellingOk(pieces) && WordsOk(words) && |pieces| == |words|
    requires forall i :: 0 <= i < |words| ==> Lower(pieces[i].0) == words[i]
    ensures NormalizePhrase(lead + Spell(pieces)) == Join(words)
  {
    SkipSpace(lead, Spell(pieces));
    WordsOfSpelling(pieces);
    assert Lowered(Words(lead + Spell(pieces))) == words;
  }

  // ---- PINs are not phrases ------------------------------------------------------------------

  /** A PIN-shaped text is never taken for a phrase of several words. */
  lemma PinIsNoPhrase(pin: string, words: seq<string>)
    requires ValidPin(pin) && WordsOk(words) && |words| > 1
    ensures NormalizePhrase(pin) != Join(words)
  {
    NormalizesTo(pin, words);
    ReadPiece(pin, [], []);
    assert pin + [] + [] == pin;
  }
}
