/** The five candidate generators (`gen5N`, `gen5L`, `gen4Mixed`, `gen4L`,
    `gen3N`, main.go:141-210). Each `rand.Intn(n)` call becomes a draw passed
    in by the caller, in call order, with `0 <= draw < n` as Go guarantees. */
module Generators {
  import Text

  const Digits: string := "0123456789"
  const Letters: string := "abcdefghijklmnopqrstuvwxyz"

  predicate IsLowerChar(c: char) {
    'a' <= c <= 'z'
  }

  /** The alphabets hold each character once, in code-point order. */
  lemma AlphabetsAscending()
    ensures |Digits| == 10 && |Letters| == 26
    ensures forall i :: 0 <= i < |Digits| ==> Digits[i] as int == '0' as int + i
    ensures forall i :: 0 <= i < |Letters| ==> Letters[i] as int == 'a' as int + i
  {
  }

  /** A draw is in range for every slot it fills. */
  predicate InRange(slots: seq<string>, draws: seq<nat>) {
    |draws| == |slots| && forall k :: 0 <= k < |slots| ==> draws[k] < |slots[k]|
  }

  /** Fills slot `k` with character `draws[k]` of its alphabet. */
  function Pick(slots: seq<string>, draws: seq<nat>): (r: string)
    requires InRange(slots, draws)
    ensures |r| == |slots|
    ensures forall k :: 0 <= k < |r| ==> r[k] in slots[k]
  {
    seq(|slots|, k requires 0 <= k < |slots| => slots[k][draws[k]])
  }

  /** `unicode.ToLower` on ASCII characters. */
  function ToLowerAscii(c: char): (r: char)
    requires c as int < 128
    ensures 'A' <= c <= 'Z' ==> IsLowerChar(r) && r as int == c as int + 32
    ensures !('A' <= c <= 'Z') ==> r == c
  {
    if 'A' <= c <= 'Z' then (c as int + 32) as char else c
  }

  function DigitSlots(n: nat): seq<string> { seq(n, _ => Digits) }
  function LetterSlots(n: nat): seq<string> { seq(n, _ => Letters) }

  /** The three layouts of `gen4Mixed`, selected by `rand.Intn(3)`:
      letter-digit-letter-letter, digit-letter-letter-digit and
      letter-letter-letter-digit. */
  function MixedSlots(format: nat): seq<string>
    requires format < 3
  {
    if format == 0 then [Letters, Digits, Letters, Letters]
    else if format == 1 then [Digits, Letters, Letters, Digits]
    else [Letters, Letters, Letters, Digits]
  }

  predicate AllDigitChars(s: string) { forall k :: 0 <= k < |s| ==> Text.IsDigit(s[k]) }
  predicate AllLowerChars(s: string) { forall k :: 0 <= k < |s| ==> IsLowerChar(s[k]) }

  /** `gen5N`. */
  function Gen5N(draws: seq<nat>): (r: string)
    requires InRange(DigitSlots(5), draws)
    ensures |r| == 5 && AllDigitChars(r)
  {
    AlphabetsAscending();
    Pick(DigitSlots(5), draws)
  }

  /** `gen3N`. */
  function Gen3N(draws: seq<nat>): (r: string)
    requires InRange(DigitSlots(3), draws)
    ensures |r| == 3 && AllDigitChars(r)
  {
    AlphabetsAscending();
    Pick(DigitSlots(3), draws)
  }

  /** `gen4L`. */
  function Gen4L(draws: seq<nat>): (r: string)
    requires InRange(LetterSlots(4), draws)
    ensures |r| == 4 && AllLowerChars(r)
  {
    AlphabetsAscending();
    Pick(LetterSlots(4), draws)
  }

  /** `gen5L`: five letters, the first passed through `unicode.ToLower`. */
  function Gen5L(draws: seq<nat>): (r: string)
    requires InRange(LetterSlots(5), draws)
    ensures |r| == 5 && AllLowerChars(r)
  {
    AlphabetsAscending();
    [ToLowerAscii(Letters[draws[0]])] + Pick(LetterSlots(4), draws[1..])
  }

  /** `gen4Mixed`. */
  function Gen4Mixed(format: nat, draws: seq<nat>): (r: string)
    requires format < 3 && InRange(MixedSlots(format), draws)
    ensures |r| == 4
    ensures format == 0 ==> IsLowerChar(r[0]) && Text.IsDigit(r[1]) && IsLowerChar(r[2]) && IsLowerChar(r[3])
    ensures format == 1 ==> Text.IsDigit(r[0]) && IsLowerChar(r[1]) && IsLowerChar(r[2]) && Text.IsDigit(r[3])
    ensures format == 2 ==> IsLowerChar(r[0]) && IsLowerChar(r[1]) && IsLowerChar(r[2]) && Text.IsDigit(r[3])
  {
    AlphabetsAscending();
    Pick(MixedSlots(format), draws)
  }

  // ---------------------------------------------------------------------
  // The generators are bijections between in-range draws and the names of
  // their shape: every such name is produced, by exactly one draw vector.

  /** No character occurs twice in `a`. */
  predicate Distinct(a: string) {
    forall i, j :: 0 <= i < j < |a| ==> a[i] != a[j]
  }

  /** Position of `c` in the alphabet `a`: the draw that picks it. */
  function IndexOf(a: string, c: char): (i: nat)
    requires c in a
    ensures i < |a| && a[i] == c
  {
    if a[0] == c then 0 else 1 + IndexOf(a[1..], c)
  }

  /** The draws that make `Pick` produce `s`. */
  function DrawsFor(slots: seq<string>, s: string): (d: seq<nat>)
    requires |s| == |slots| && forall k :: 0 <= k < |s| ==> s[k] in slots[k]
    ensures InRange(slots, d)
  {
    seq(|s|, k requires 0 <= k < |s| => IndexOf(slots[k], s[k]))
  }

  /** Every name whose characters come from the slot alphabets is produced. */
  lemma PickCovers(slots: seq<string>, s: string)
    requires |s| == |slots| && forall k :: 0 <= k < |s| ==> s[k] in slots[k]
    ensures Pick(slots, DrawsFor(slots, s)) == s
  {
  }

  /** Different draws produce different names when no alphabet repeats a character. */
  lemma PickInjective(slots: seq<string>, d1: seq<nat>, d2: seq<nat>)
    requires forall k :: 0 <= k < |slots| ==> Distinct(slots[k])
    requires InRange(slots, d1) && InRange(slots, d2)
    requires Pick(slots, d1) == Pick(slots, d2)
    ensures d1 == d2
  {
    forall k | 0 <= k < |slots|
      ensures d1[k] == d2[k]
    {
      assert slots[k][d1[k]] == Pick(slots, d1)[k] == Pick(slots, d2)[k] == slots[k][d2[k]];
    }
  }

  lemma AlphabetsDistinct()
    ensures Distinct(Digits) && Distinct(Letters)
  {
    AlphabetsAscending();
  }

  /** Every decimal digit is in the digit alphabet. */
  lemma DigitIn(c: char)
    requires Text.IsDigit(c)
    ensures c in Digits
  {
    AlphabetsAscending();
    assert Digits[c as int - '0' as int] == c;
  }

  /** Every lower-case ASCII letter is in the letter alphabet. */
  lemma LowerIn(c: char)
    requires IsLowerChar(c)
    ensures c in Letters
  {
    AlphabetsAscending();
    assert Letters[c as int - 'a' as int] == c;
  }

  /** A digit-only name fits digit slots, a letter-only name letter slots. */
  lemma UniformFits(s: string)
    ensures AllDigitChars(s) ==> forall k :: 0 <= k < |s| ==> s[k] in DigitSlots(|s|)[k]
    ensures AllLowerChars(s) ==> forall k :: 0 <= k < |s| ==> s[k] in LetterSlots(|s|)[k]
  {
    forall k | 0 <= k < |s| && AllDigitChars(s) ensures s[k] in DigitSlots(|s|)[k] {
      DigitIn(s[k]);
    }
    forall k | 0 <= k < |s| && AllLowerChars(s) ensures s[k] in LetterSlots(|s|)[k] {
      LowerIn(s[k]);
    }
  }

  /** `gen5N` reaches every five-digit name, each from exactly one draw vector. */
  lemma Gen5NBijective(s: string, d1: seq<nat>, d2: seq<nat>)
    requires |s| == 5 && AllDigitChars(s)
    requires InRange(DigitSlots(5), d1) && InRange(DigitSlots(5), d2)
    ensures InRange(DigitSlots(5), DrawsFor(DigitSlots(5), s)) && Gen5N(DrawsFor(DigitSlots(5), s)) == s
    ensures Gen5N(d1) == Gen5N(d2) ==> d1 == d2
  {
    UniformDistinct(|s|);
    UniformFits(s);
    PickCovers(DigitSlots(5), s);
    if Gen5N(d1) == Gen5N(d2) {
      PickInjective(DigitSlots(5), d1, d2);
    }
  }

  /** `gen3N` reaches every three-digit name, each from exactly one draw vector. */
  lemma Gen3NBijective(s: string, d1: seq<nat>, d2: seq<nat>)
    requires |s| == 3 && AllDigitChars(s)
    requires InRange(DigitSlots(3), d1) && InRange(DigitSlots(3), d2)
    ensures InRange(DigitSlots(3), DrawsFor(DigitSlots(3), s)) && Gen3N(DrawsFor(DigitSlots(3), s)) == s
    ensures Gen3N(d1) == Gen3N(d2) ==> d1 == d2
  {
    UniformDistinct(|s|);
    UniformFits(s);
    PickCovers(DigitSlots(3), s);
    if Gen3N(d1) == Gen3N(d2) {
      PickInjective(DigitSlots(3), d1, d2);
    }
  }

  /** `gen4L` reaches every four-letter name, each from exactly one draw vector. */
  lemma Gen4LBijective(s: string, d1: seq<nat>, d2: seq<nat>)
    requires |s| == 4 && AllLowerChars(s)
    requires InRange(LetterSlots(4), d1) && InRange(LetterSlots(4), d2)
    ensures InRange(LetterSlots(4), DrawsFor(LetterSlots(4), s)) && Gen4L(DrawsFor(LetterSlots(4), s)) == s
    ensures Gen4L(d1) == Gen4L(d2) ==> d1 == d2
  {
    UniformDistinct(|s|);
    UniformFits(s);
    PickCovers(LetterSlots(4), s);
    if Gen4L(d1) == Gen4L(d2) {
      PickInjective(LetterSlots(4), d1, d2);
    }
  }

  /** The `unicode.ToLower` on the first letter of `gen5L` changes nothing:
      `gen5L` is five independent lower-case letters. */
  lemma Gen5LIsPick(draws: seq<nat>)
    requires InRange(LetterSlots(5), draws)
    ensures Gen5L(draws) == Pick(LetterSlots(5), draws)
  {
    AlphabetsAscending();
    assert IsLowerChar(Letters[draws[0]]);
  }

  /** `gen5L` reaches every five-letter name, each from exactly one draw vector. */
  lemma Gen5LBijective(s: string, d1: seq<nat>, d2: seq<nat>)
    requires |s| == 5 && AllLowerChars(s)
    requires InRange(LetterSlots(5), d1) && InRange(LetterSlots(5), d2)
    ensures InRange(LetterSlots(5), DrawsFor(LetterSlots(5), s)) && Gen5L(DrawsFor(LetterSlots(5), s)) == s
    ensures Gen5L(d1) == Gen5L(d2) ==> d1 == d2
  {
    UniformDistinct(|s|);
    UniformFits(s);
    PickCovers(LetterSlots(5), s);
    Gen5LIsPick(DrawsFor(LetterSlots(5), s));
    Gen5LIsPick(d1);
    Gen5LIsPick(d2);
    if Gen5L(d1) == Gen5L(d2) {
      PickInjective(LetterSlots(5), d1, d2);
    }
  }

  /** The three `gen4Mixed` layouts never produce the same name, so the
      format draw can be read back from the output, and within a format the
      draws are determined too. */
  lemma Gen4MixedInjective(f1: nat, d1: seq<nat>, f2: nat, d2: seq<nat>)
    requires f1 < 3 && InRange(MixedSlots(f1), d1)
    requires f2 < 3 && InRange(MixedSlots(f2), d2)
    requires Gen4Mixed(f1, d1) == Gen4Mixed(f2, d2)
    ensures f1 == f2 && d1 == d2
  {
    MixedLayoutFromName(f1, d1);
    MixedLayoutFromName(f2, d2);
    MixedDistinct(f1);
    PickInjective(MixedSlots(f1), d1, d2);
  }

  /** The layout shows in the first two characters: only layout 1 starts
      with a digit and only layout 0 has a digit second. */
  lemma MixedLayoutFromName(f: nat, d: seq<nat>)
    requires f < 3 && InRange(MixedSlots(f), d)
    ensures Text.IsDigit(Gen4Mixed(f, d)[0]) <==> f == 1
    ensures Text.IsDigit(Gen4Mixed(f, d)[1]) <==> f == 0
  {
  }

  lemma UniformDistinct(n: nat)
    ensures forall k :: 0 <= k < n ==> Distinct(DigitSlots(n)[k]) && Distinct(LetterSlots(n)[k])
  {
    AlphabetsDistinct();
  }

  lemma MixedDistinct(f: nat)
    requires f < 3
    ensures forall k :: 0 <= k < |MixedSlots(f)| ==> Distinct(MixedSlots(f)[k])
  {
    AlphabetsDistinct();
  }

  /** Every name of one of the three `gen4Mixed` layouts is produced. */
  lemma Gen4MixedCovers(format: nat, s: string)
    requires format < 3 && |s| == 4
    requires format == 0 ==> IsLowerChar(s[0]) && Text.IsDigit(s[1]) && IsLowerChar(s[2]) && IsLowerChar(s[3])
    requires format == 1 ==> Text.IsDigit(s[0]) && IsLowerChar(s[1]) && IsLowerChar(s[2]) && Text.IsDigit(s[3])
    requires format == 2 ==> IsLowerChar(s[0]) && IsLowerChar(s[1]) && IsLowerChar(s[2]) && Text.IsDigit(s[3])
    ensures InRange(MixedSlots(format), DrawsFor(MixedSlots(format), s))
    ensures Gen4Mixed(format, DrawsFor(MixedSlots(format), s)) == s
  {
    var slots := MixedSlots(format);
    forall k | 0 <= k < 4 ensures s[k] in slots[k] {
      if slots[k] == Digits {
        DigitIn(s[k]);
      } else {
        LowerIn(s[k]);
      }
    }
    PickCovers(slots, s);
  }
}
