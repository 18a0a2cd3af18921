/** The two pieces of Go's standard library that the prober relies on:
    `strings.TrimSpace` (line clean-up) and `strconv.Atoi` (the `Retry-After`
    header). */
module Text {
  import opened Common

  /** The white-space characters `strings.TrimSpace` removes, restricted to
      Latin-1: tab, line feed, vertical tab, form feed, carriage return,
      space, next line (U+0085) and no-break space (U+00A0). */
  predicate IsSpace(c: char) {
    c == ' ' || c == '\t' || c == '\n' || c == '\U{000B}' || c == '\U{000C}'
    || c == '\r' || c == '\U{0085}' || c == '\U{00A0}'
  }

  /** Neither end of `s` is white space. */
  predicate IsTrimmed(s: string) {
    s == [] || (!IsSpace(s[0]) && !IsSpace(s[|s| - 1]))
  }

  /** Drops the white-space prefix: the result is a suffix of `s`, what was
      cut is all white space, and what is left does not start with it. */
  function TrimLeft(s: string): (r: string)
    ensures |r| <= |s| && r == s[|s| - |r|..]
    ensures forall k :: 0 <= k < |s| - |r| ==> IsSpace(s[k])
    ensures r == [] || !IsSpace(r[0])
  {
    if |s| > 0 && IsSpace(s[0]) then TrimLeft(s[1..]) else s
  }

  /** Drops the white-space suffix, symmetrically to `TrimLeft`. */
  function TrimRight(s: string): (r: string)
    ensures |r| <= |s| && r == s[..|r|]
    ensures forall k :: |r| <= k < |s| ==> IsSpace(s[k])
    ensures r == [] || !IsSpace(r[|r| - 1])
  {
    if |s| > 0 && IsSpace(s[|s| - 1]) then TrimRight(s[..|s| - 1]) else s
  }

  /** `r` is the slice `s[i..j]` for some cut points with only white space
      outside them, and `r` itself has no white space at either end. */
  ghost predicate IsTrimOf(r: string, s: string) {
    exists i, j :: 0 <= i <= j <= |s| && r == s[i..j] && TrimCuts(r, s, i, j)
  }

  ghost predicate TrimCuts(r: string, s: string, i: int, j: int)
    requires 0 <= i <= j <= |s|
  {
    && (forall k :: 0 <= k < i ==> IsSpace(s[k]))
    && (forall k :: j <= k < |s| ==> IsSpace(s[k]))
    && IsTrimmed(r)
  }

  /** `strings.TrimSpace`: no white space is left at either end (that the
      result is the trimming of `s` is `TrimSpaceIsTrim`). */
  function TrimSpace(s: string): (r: string)
    ensures |r| <= |s|
    ensures IsTrimmed(r)
  {
    TrimRight(TrimLeft(s))
  }

  /** `TrimSpace` cuts only white space, from both ends. */
  lemma TrimSpaceIsTrim(s: string)
    ensures IsTrimOf(TrimSpace(s), s)
  {
    var l := TrimLeft(s);
    var r := TrimRight(l);
    var i := |s| - |l|;
    var j := i + |r|;
    assert r == s[i..j] by {
      assert l == s[i..];
      assert r == l[..|r|];
    }
    assert forall k :: j <= k < |s| ==> IsSpace(s[k]) by {
      forall k | j <= k < |s| ensures IsSpace(s[k]) {
        assert s[k] == l[k - i];
      }
    }
    CutsGiveTrim(r, s, i, j);
  }

  lemma CutsGiveTrim(r: string, s: string, i: int, j: int)
    requires 0 <= i <= j <= |s| && r == s[i..j]
    requires forall k :: 0 <= k < i ==> IsSpace(s[k])
    requires forall k :: j <= k < |s| ==> IsSpace(s[k])
    requires IsTrimmed(r)
    ensures IsTrimOf(r, s)
  {
    assert TrimCuts(r, s, i, j);
  }

  /** A trimming is empty exactly when the whole input is white space. */
  lemma TrimOfEmpty(r: string, s: string)
    requires IsTrimOf(r, s)
    ensures r == [] <==> forall k :: 0 <= k < |s| ==> IsSpace(s[k])
  {
    var i, j :| 0 <= i <= j <= |s| && r == s[i..j] && TrimCuts(r, s, i, j);
    if r != [] {
      assert s[i] == r[0];
    } else {
      assert i == j;
    }
  }

  /** Two non-empty trimmings of the same string cut at the same places. */
  lemma TrimCutsAgree(s: string, r1: string, i1: int, j1: int, r2: string, i2: int, j2: int)
    requires 0 <= i1 <= j1 <= |s| && r1 == s[i1..j1] && TrimCuts(r1, s, i1, j1) && r1 != []
    requires 0 <= i2 <= j2 <= |s| && r2 == s[i2..j2] && TrimCuts(r2, s, i2, j2) && r2 != []
    ensures i1 == i2 && j1 == j2
  {
    assert s[i1] == r1[0] && s[i2] == r2[0];
    assert s[j1 - 1] == r1[|r1| - 1] && s[j2 - 1] == r2[|r2| - 1];
  }

  /** There is only one way to trim a string: `IsTrimOf` determines its
      first argument. */
  lemma TrimOfUnique(r1: string, r2: string, s: string)
    requires IsTrimOf(r1, s) && IsTrimOf(r2, s)
    ensures r1 == r2
  {
    TrimOfEmpty(r1, s);
    TrimOfEmpty(r2, s);
    if r1 != [] {
      var i1, j1 :| 0 <= i1 <= j1 <= |s| && r1 == s[i1..j1] && TrimCuts(r1, s, i1, j1);
      var i2, j2 :| 0 <= i2 <= j2 <= |s| && r2 == s[i2..j2] && TrimCuts(r2, s, i2, j2);
      TrimCutsAgree(s, r1, i1, j1, r2, i2, j2);
    }
  }

  /** `TrimSpace` is the unique trimming of its input. */
  lemma TrimSpaceUnique(r: string, s: string)
    requires IsTrimOf(r, s)
    ensures r == TrimSpace(s)
  {
    TrimSpaceIsTrim(s);
    TrimOfUnique(r, TrimSpace(s), s);
  }

  /** A string with no white space at either end is left alone. */
  lemma TrimSpaceOfTrimmed(s: string)
    requires IsTrimmed(s)
    ensures TrimSpace(s) == s
  {
    assert s == s[0..|s|] && TrimCuts(s, s, 0, |s|);
    TrimSpaceUnique(s, s);
  }

  /** Trimming twice is trimming once. */
  lemma TrimSpaceIdempotent(s: string)
    ensures TrimSpace(TrimSpace(s)) == TrimSpace(s)
  {
    TrimSpaceOfTrimmed(TrimSpace(s));
  }

  // ---------------------------------------------------------------------
  // strconv.Atoi

  predicate IsDigit(c: char) {
    '0' <= c <= '9'
  }

  predicate AllDigits(s: string) {
    forall k :: 0 <= k < |s| ==> IsDigit(s[k])
  }

  function DigitValue(c: char): nat
    requires IsDigit(c)
  {
    (c as int) - ('0' as int)
  }

  /** The number a string of decimal digits denotes, most significant first. */
  function DigitsValue(ds: string): nat
    requires AllDigits(ds)
  {
    if ds == [] then 0 else 10 * DigitsValue(ds[..|ds| - 1]) + DigitValue(ds[|ds| - 1])
  }

  /** `strconv.Atoi` on a 64-bit platform: an optional `+` or `-` sign
      followed by one or more decimal digits, whose value must fit in an
      `int64`; anything else (the empty string, a lone sign, another
      character, an out-of-range value) is an error. */
  function Atoi(s: string): (r: Option<int>)
    ensures r.Some? ==> InInt64(r.value)
    ensures r.Some? ==> |s| > 0 && (IsDigit(s[0]) || s[0] == '-' || s[0] == '+')
    ensures r.Some? ==> AllDigits(s[1..]) && (|s| > 1 || IsDigit(s[0]))
    ensures r.Some? && r.value < 0 ==> s[0] == '-'
  {
    if |s| == 0 then None
    else
      var signed := s[0] == '-' || s[0] == '+';
      var digits := if signed then s[1..] else s;
      if |digits| == 0 || !AllDigits(digits) then None
      else
        var d: int := DigitsValue(digits);
        var v := if s[0] == '-' then -d else d;
        if InInt64(v) then Some(v) else None
  }

  /** Decimal rendering of a natural number (the inverse partner of `Atoi`). */
  function NatString(n: nat): string
  {
    var last := [('0' as int + n % 10) as char];
    if n < 10 then last else NatString(n / 10) + last
  }

  /** `strconv.Itoa`. */
  function Itoa(n: int): string
  {
    if n < 0 then "-" + NatString(-n) else NatString(n)
  }

  lemma {:induction false} NatStringDigits(n: nat)
    ensures |NatString(n)| >= 1 && AllDigits(NatString(n))
    ensures DigitsValue(NatString(n)) == n
  {
    var s := NatString(n);
    if n >= 10 {
      NatStringDigits(n / 10);
      assert s[..|s| - 1] == NatString(n / 10);
    }
  }

  /** `Atoi` on a bare non-empty digit string: its value when that fits in
      an `int64`, an error otherwise. */
  lemma AtoiUnsigned(ds: string)
    requires |ds| > 0 && AllDigits(ds)
    ensures Atoi(ds) == if DigitsValue(ds) <= MaxInt64 then Some(DigitsValue(ds)) else None
  {
    assert IsDigit(ds[0]);
  }

  /** A leading `+` changes nothing. */
  lemma AtoiPlus(ds: string)
    requires |ds| > 0 && AllDigits(ds)
    ensures Atoi("+" + ds) == Atoi(ds)
  {
    var s := "+" + ds;
    assert s[0] == '+' && s[1..] == ds;
    AtoiUnsigned(ds);
  }

  /** A leading `-` negates, within the `int64` range. */
  lemma AtoiMinus(ds: string)
    requires |ds| > 0 && AllDigits(ds)
    ensures Atoi("-" + ds) == if DigitsValue(ds) <= -MinInt64 then Some(0 - DigitsValue(ds) as int) else None
  {
    var s := "-" + ds;
    assert s[0] == '-' && s[1..] == ds;
  }

  /** A leading zero does not change the value of a digit string. */
  lemma {:induction false} DigitsValueLeadingZero(ds: string)
    requires AllDigits(ds)
    ensures AllDigits("0" + ds) && DigitsValue("0" + ds) == DigitsValue(ds)
    decreases |ds|
  {
    var z := "0" + ds;
    if ds != [] {
      assert z[..|z| - 1] == "0" + ds[..|ds| - 1];
      assert z[|z| - 1] == ds[|ds| - 1];
      DigitsValueLeadingZero(ds[..|ds| - 1]);
    }
  }

  /** Leading zeros are accepted and ignored: `Atoi("0" + s) == Atoi(s)` for
      every digit string `s`, after any sign. */
  lemma AtoiLeadingZero(ds: string)
    requires |ds| > 0 && AllDigits(ds)
    ensures Atoi("0" + ds) == Atoi(ds)
    ensures Atoi("+0" + ds) == Atoi("+" + ds)
    ensures Atoi("-0" + ds) == Atoi("-" + ds)
  {
    DigitsValueLeadingZero(ds);
    AtoiUnsigned(ds);
    AtoiUnsigned("0" + ds);
    AtoiPlus(ds);
    AtoiPlus("0" + ds);
    AtoiMinus(ds);
    AtoiMinus("0" + ds);
    assert "+0" + ds == "+" + ("0" + ds);
    assert "-0" + ds == "-" + ("0" + ds);
  }

  /** `Atoi` reads back every `int64` that `Itoa` writes. */
  lemma AtoiItoa(n: int)
    requires InInt64(n)
    ensures Atoi(Itoa(n)) == Some(n)
  {
    if n < 0 {
      NatStringDigits(-n);
      assert Itoa(n) == "-" + NatString(-n);
      AtoiMinus(NatString(-n));
    } else {
      NatStringDigits(n);
      assert Itoa(n) == NatString(n);
      AtoiUnsigned(NatString(n));
    }
  }
}
