/**
 * The pieces of Go's standard library that the diagnostic pipeline leans on:
 * `strings.HasPrefix`/`TrimPrefix`, `strings.TrimSpace` (with `unicode.IsSpace`)
 * and the decimal rendering of an `int` by the `%d` verb of `fmt`.
 * Strings are sequences of Unicode code points.
 */
module Text {
  import opened Wrappers

  predicate HasPrefix(s: string, prefix: string)
  {
    |prefix| <= |s| && s[..|prefix|] == prefix
  }

  /** `strings.TrimPrefix`: drops one leading copy of `prefix`, if there is one. */
  function TrimPrefix(s: string, prefix: string): (r: string)
    ensures HasPrefix(s, prefix) ==> prefix + r == s
    ensures !HasPrefix(s, prefix) ==> r == s
  {
    if HasPrefix(s, prefix) then s[|prefix|..] else s
  }

  /** `unicode.IsSpace`: the code points with the Unicode White_Space property. */
  predicate IsSpace(c: char)
  {
    || ('\t' <= c <= '\r')
    || c == ' '
    || c == '\U{0085}'
    || c == '\U{00A0}'
    || c == '\U{1680}'
    || ('\U{2000}' <= c <= '\U{200A}')
    || c == '\U{2028}'
    || c == '\U{2029}'
    || c == '\U{202F}'
    || c == '\U{205F}'
    || c == '\U{3000}'
  }

  /** `r` is `s` with every leading and every trailing white-space code point removed. */
  ghost predicate IsTrimmedOf(s: string, r: string)
  {
    exists i :: 0 <= i <= |s| - |r| && IsTrimmedAt(s, r, i)
  }

  /** `r` sits at offset `i` in `s`, flanked by white space only, and neither starts nor ends with it. */
  ghost predicate IsTrimmedAt(s: string, r: string, i: int)
  {
    && 0 <= i <= |s| - |r|
    && s[i..i + |r|] == r
    && (forall k :: 0 <= k < i ==> IsSpace(s[k]))
    && (forall k :: i + |r| <= k < |s| ==> IsSpace(s[k]))
    && (r != [] ==> !IsSpace(r[0]) && !IsSpace(r[|r| - 1]))
  }

  function TrimLeftSpace(s: string): string
  {
    if s != [] && IsSpace(s[0]) then TrimLeftSpace(s[1..]) else s
  }

  /** Trimming the front leaves a suffix, drops only white space, and stops at the first other code point. */
  lemma {:induction false} TrimLeftSpaceSpec(s: string)
    ensures var r := TrimLeftSpace(s);
      && |r| <= |s| && r == s[|s| - |r|..]
      && (forall k :: 0 <= k < |s| - |r| ==> IsSpace(s[k]))
      && (r != [] ==> !IsSpace(r[0]))
  {
    if s != [] && IsSpace(s[0]) {
      var t := s[1..];
      TrimLeftSpaceSpec(t);
      var r := TrimLeftSpace(t);
      assert r == s[|s| - |r|..] by {
        assert t[|t| - |r|..] == s[|s| - |r|..];
      }
      forall k | 0 <= k < |s| - |r| ensures IsSpace(s[k]) {
        if k > 0 {
          assert s[k] == t[k - 1];
        }
      }
    }
  }

  function TrimRightSpace(s: string): string
  {
    if s != [] && IsSpace(s[|s| - 1]) then TrimRightSpace(s[..|s| - 1]) else s
  }

  /** Trimming the back leaves a prefix, drops only white space, and stops at the last other code point. */
  lemma {:induction false} TrimRightSpaceSpec(s: string)
    ensures var r := TrimRightSpace(s);
      && |r| <= |s| && r == s[..|r|]
      && (forall k :: |r| <= k < |s| ==> IsSpace(s[k]))
      && (r != [] ==> !IsSpace(r[|r| - 1]))
  {
    if s != [] && IsSpace(s[|s| - 1]) {
      TrimRightSpaceSpec(s[..|s| - 1]);
    }
  }

  /** `strings.TrimSpace`. */
  function TrimSpace(s: string): string
  {
    TrimRightSpace(TrimLeftSpace(s))
  }

  /** `strings.TrimSpace` strips exactly the white space at both ends, and the result neither starts nor ends with any. */
  lemma TrimSpaceTrims(s: string)
    ensures IsTrimmedOf(s, TrimSpace(s))
    ensures TrimSpace(s) != [] ==> !IsSpace(TrimSpace(s)[0]) && !IsSpace(TrimSpace(s)[|TrimSpace(s)| - 1])
  {
    TrimBothAt(s);
  }

  lemma TrimBothAt(s: string)
    ensures IsTrimmedAt(s, TrimRightSpace(TrimLeftSpace(s)), |s| - |TrimLeftSpace(s)|)
  {
    var l := TrimLeftSpace(s);
    var r := TrimRightSpace(l);
    var i := |s| - |l|;
    TrimLeftSpaceSpec(s);
    TrimRightSpaceSpec(l);
    TrimBothSlice(s, l, r, i);
    TrimBothTail(s, l, r, i);
    if r != [] {
      assert r[0] == l[0];
    }
  }

  lemma TrimBothSlice(s: string, l: string, r: string, i: int)
    requires 0 <= i <= |s| && l == s[i..] && |r| <= |l| && r == l[..|r|]
    ensures s[i..i + |r|] == r
  {
  }

  lemma TrimBothTail(s: string, l: string, r: string, i: int)
    requires 0 <= i <= |s| && l == s[i..] && |r| <= |l|
    requires forall k :: |r| <= k < |l| ==> IsSpace(l[k])
    ensures forall k :: i + |r| <= k < |s| ==> IsSpace(s[k])
  {
    forall k | i + |r| <= k < |s| ensures IsSpace(s[k]) {
      assert l[k - i] == s[k];
    }
  }

  /** Trimming is determined by its input: there is only one way to strip both ends. */
  lemma TrimmedUnique(s: string, r1: string, r2: string)
    requires IsTrimmedOf(s, r1) && IsTrimmedOf(s, r2)
    ensures r1 == r2
  {
    var i1 :| IsTrimmedAt(s, r1, i1);
    var i2 :| IsTrimmedAt(s, r2, i2);
    TrimmedAtUnique(s, r1, i1, r2, i2);
  }

  lemma TrimmedAtUnique(s: string, r1: string, i1: int, r2: string, i2: int)
    requires IsTrimmedAt(s, r1, i1) && IsTrimmedAt(s, r2, i2)
    ensures r1 == r2
  {
    if r1 != [] {
      assert s[i1] == r1[0] && s[i1 + |r1| - 1] == r1[|r1| - 1] by {
        assert r1 == s[i1..i1 + |r1|];
      }
    }
    if r2 != [] {
      assert s[i2] == r2[0] && s[i2 + |r2| - 1] == r2[|r2| - 1] by {
        assert r2 == s[i2..i2 + |r2|];
      }
    }
    if r1 != [] && r2 != [] {
      assert i1 == i2;
      assert i1 + |r1| == i2 + |r2|;
    }
  }

  /** `strings.TrimSpace` leaves an already trimmed string as it is. */
  lemma TrimSpaceIdempotent(s: string)
    ensures TrimSpace(TrimSpace(s)) == TrimSpace(s)
  {
    var r := TrimSpace(s);
    TrimSpaceTrims(s);
    TrimSpaceTrims(r);
    assert IsTrimmedAt(r, r, 0) by {
      assert r[0..|r|] == r;
    }
    TrimmedUnique(r, TrimSpace(r), r);
  }

  // ---- Decimal rendering of integers (the `%d` verb) ----

  predicate IsDigit(c: char)
  {
    '0' <= c <= '9'
  }

  function DigitChar(k: nat): (c: char)
    requires k < 10
    ensures IsDigit(c)
  {
    (('0' as int) + k) as char
  }

  function DigitValue(c: char): (k: nat)
    requires IsDigit(c)
    ensures k < 10 && DigitChar(k) == c
  {
    (c as int) - ('0' as int)
  }

  /** Digits of `n`, most significant first, with no leading zero. */
  function NatToDecimal(n: nat): (s: string)
    ensures s != [] && forall k :: 0 <= k < |s| ==> IsDigit(s[k])
    ensures |s| > 1 ==> s[0] != '0'
  {
    if n < 10 then [DigitChar(n)] else NatToDecimal(n / 10) + [DigitChar(n % 10)]
  }

  /** What `fmt` prints for an `int` under `%d`: a minus sign before negative numbers. */
  function IntToDecimal(n: int): (s: string)
    ensures s != [] && forall k :: 0 <= k < |s| ==> s[k] != ':'
    ensures s[0] == '-' <==> n < 0
    ensures ParseInt(s) == Some(n)
  {
    NatRoundTrip(if n < 0 then -n else n);
    if n < 0 then
      var d := NatToDecimal(-n);
      assert ("-" + d)[1..] == d;
      "-" + d
    else
      NatToDecimal(n)
  }

  predicate AllDigits(s: string)
  {
    s != [] && forall k :: 0 <= k < |s| ==> IsDigit(s[k])
  }

  /** The number a non-empty string of decimal digits denotes. */
  function ParseNat(s: string): nat
    requires AllDigits(s)
  {
    if |s| == 1 then DigitValue(s[0])
    else
      assert AllDigits(s[..|s| - 1]);
      ParseNat(s[..|s| - 1]) * 10 + DigitValue(s[|s| - 1])
  }

  /** Digits with no leading zero, as `%d` writes them. */
  predicate CanonicalDigits(s: string)
  {
    AllDigits(s) && (|s| > 1 ==> s[0] != '0')
  }

  /** Reads back an optionally signed decimal number in the form `%d` writes (no `-0`, no leading zero). */
  function ParseInt(s: string): Option<int>
  {
    if s != [] && s[0] == '-' then
      if CanonicalDigits(s[1..]) && s[1..] != "0" then Some(0 - ParseNat(s[1..]) as int) else None
    else if CanonicalDigits(s) then Some(ParseNat(s))
    else None
  }

  lemma {:induction false} NatRoundTrip(n: nat)
    ensures ParseNat(NatToDecimal(n)) == n
  {
    if n >= 10 {
      var s := NatToDecimal(n);
      assert s[..|s| - 1] == NatToDecimal(n / 10);
      NatRoundTrip(n / 10);
    }
  }

  /** A digit string that does not start with `0` denotes a positive number. */
  lemma {:induction false} LeadingDigitPositive(s: string)
    requires AllDigits(s) && s[0] != '0'
    ensures ParseNat(s) >= 1
  {
    if |s| > 1 {
      var front := s[..|s| - 1];
      assert AllDigits(front) && front[0] == s[0];
      LeadingDigitPositive(front);
    }
  }

  /** Canonical digits are the only rendering of the number they denote. */
  lemma {:induction false} NatUnique(s: string)
    requires CanonicalDigits(s)
    ensures NatToDecimal(ParseNat(s)) == s
  {
    if |s| > 1 {
      var front := s[..|s| - 1];
      assert AllDigits(front) && front[0] == s[0];
      LeadingDigitPositive(front);
      NatUnique(front);
      var m := ParseNat(s);
      assert m == ParseNat(front) * 10 + DigitValue(s[|s| - 1]);
      assert m / 10 == ParseNat(front) && m % 10 == DigitValue(s[|s| - 1]);
      assert s == front + [s[|s| - 1]];
    }
  }

  /** Whatever reads back as `n` is exactly the `%d` text of `n`. */
  lemma DecimalUnique(s: string, n: int)
    requires ParseInt(s) == Some(n)
    ensures s == IntToDecimal(n)
  {
    if s != [] && s[0] == '-' {
      var d := s[1..];
      LeadingDigitPositive(d);
      NatUnique(d);
      assert s == "-" + d;
    } else {
      NatUnique(s);
    }
  }
}
