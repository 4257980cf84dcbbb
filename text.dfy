/**
 * Character-level helpers: decimal numerals as Swift's string interpolation
 * writes them, a scanner that reads them back, and trimming of white space.
 */
module Text {
  import opened Wrappers

  predicate IsDigit(c: char) { '0' <= c <= '9' }

  function DigitValue(c: char): (d: nat)
    requires IsDigit(c)
    ensures d < 10
  {
    (c as int) - ('0' as int)
  }

  function DigitChar(d: nat): (c: char)
    requires d < 10
    ensures IsDigit(c) && DigitValue(c) == d
  {
    (('0' as int) + d) as char
  }

  predicate AllDigits(s: string) { forall i :: 0 <= i < |s| ==> IsDigit(s[i]) }

  predicate StartsWithDigit(s: string) { |s| > 0 && IsDigit(s[0]) }

  /** `"\(n)"` for a non-negative integer: its decimal digits, without leading zeros. */
  function NatToString(n: nat): (s: string)
    ensures 1 <= |s| && AllDigits(s)
    ensures |s| > 1 ==> s[0] != '0'
    decreases n
  {
    if n < 10 then [DigitChar(n)] else NatToString(n / 10) + [DigitChar(n % 10)]
  }

  /** `"\(i)"` for any integer: a minus sign before the digits of a negative one. */
  function IntToString(i: int): (s: string)
    ensures 1 <= |s|
  {
    if i < 0 then "-" + NatToString(-i) else NatToString(i)
  }

  /** The number a string of decimal digits denotes (leading zeros allowed). */
  function DigitsValue(s: string): nat
    requires AllDigits(s)
    decreases |s|
  {
    if s == [] then 0 else DigitsValue(s[..|s| - 1]) * 10 + DigitValue(s[|s| - 1])
  }

  lemma {:induction false} NatToStringValue(n: nat)
    ensures DigitsValue(NatToString(n)) == n
    decreases n
  {
    if n >= 10 {
      var s := NatToString(n / 10);
      NatToStringValue(n / 10);
      assert (s + [DigitChar(n % 10)])[..|s|] == s;
    }
  }

  lemma {:induction false} LeadingZeroValue(s: string)
    requires AllDigits(s)
    ensures AllDigits("0" + s) && DigitsValue("0" + s) == DigitsValue(s)
    decreases |s|
  {
    assert AllDigits("0" + s);
    if s != [] {
      var init := s[..|s| - 1];
      LeadingZeroValue(init);
      assert ("0" + s)[..|s|] == "0" + init;
    }
  }

  /** Length of the longest prefix of `s` made of digits. */
  function DigitRun(s: string): (k: nat)
    ensures k <= |s| && AllDigits(s[..k])
    ensures k < |s| ==> !IsDigit(s[k])
  {
    if s == [] || !IsDigit(s[0]) then 0
    else
      var k := 1 + DigitRun(s[1..]);
      assert s[..k] == [s[0]] + s[1..][..k - 1];
      k
  }

  lemma {:induction false} DigitRunAppend(d: string, rest: string)
    requires AllDigits(d) && !StartsWithDigit(rest)
    ensures DigitRun(d + rest) == |d|
    decreases |d|
  {
    if d == [] {
      assert d + rest == rest;
    } else {
      DigitRunAppend(d[1..], rest);
      assert (d + rest)[1..] == d[1..] + rest;
    }
  }

  /** Reads a run of digits at the front of `s`: its value and what follows it. */
  function ScanNat(s: string): (r: Option<(nat, string)>)
    ensures r.None? <==> !StartsWithDigit(s)
    ensures r.Some? ==> |r.value.1| < |s| && r.value.1 == s[|s| - |r.value.1|..]
  {
    var k := DigitRun(s);
    if k == 0 then None else Some((DigitsValue(s[..k]), s[k..]))
  }

  lemma ScanDigits(d: string, rest: string)
    requires 1 <= |d| && AllDigits(d) && !StartsWithDigit(rest)
    ensures ScanNat(d + rest) == Some((DigitsValue(d), rest))
  {
    DigitRunAppend(d, rest);
    assert (d + rest)[..|d|] == d;
    assert (d + rest)[|d|..] == rest;
  }

  lemma ScanNatToString(n: nat, rest: string)
    requires !StartsWithDigit(rest)
    ensures ScanNat(NatToString(n) + rest) == Some((n, rest))
  {
    ScanDigits(NatToString(n), rest);
    NatToStringValue(n);
  }

  /** Reads an optionally negative integer at the front of `s`. */
  function ScanInt(s: string): (r: Option<(int, string)>)
    ensures r.Some? ==> |r.value.1| < |s|
  {
    if |s| > 0 && s[0] == '-' then
      match ScanNat(s[1..])
      case None => None
      case Some((n, rest)) => var v: int := n; Some((-v, rest))
    else
      match ScanNat(s)
      case None => None
      case Some((n, rest)) => Some((n as int, rest))
  }

  lemma ScanIntToString(i: int, rest: string)
    requires !StartsWithDigit(rest)
    ensures ScanInt(IntToString(i) + rest) == Some((i, rest))
  {
    if i < 0 {
      ScanNegative(-i, rest);
    } else {
      var s := NatToString(i) + rest;
      assert s[0] == NatToString(i)[0];
      ScanNatToString(i, rest);
    }
  }

  lemma ScanNegative(n: nat, rest: string)
    requires !StartsWithDigit(rest)
    ensures ScanInt("-" + NatToString(n) + rest) == Some((-(n as int), rest))
  {
    var s := "-" + NatToString(n) + rest;
    assert |s| > 0 && s[0] == '-';
    assert s[1..] == NatToString(n) + rest;
    ScanNatToString(n, rest);
  }

  /** `String(format: "%02d", n)`: at least two digits, zero-padded on the left. */
  function Pad2(n: nat): (s: string)
    ensures 2 <= |s| && AllDigits(s)
  {
    if n < 10 then "0" + NatToString(n) else NatToString(n)
  }

  lemma Pad2Value(n: nat)
    ensures DigitsValue(Pad2(n)) == n
  {
    NatToStringValue(n);
    if n < 10 { LeadingZeroValue(NatToString(n)); }
  }

  // ---------------------------------------------------------------------------
  // Trimming, as `trimmingCharacters(in: .whitespacesAndNewlines)` does it.

  /** The characters with the Unicode White_Space property. */
  predicate IsWhitespace(c: char) {
    || ('\U{0009}' <= c <= '\U{000D}') || c == '\U{0020}' || c == '\U{0085}' || c == '\U{00A0}'
    || c == '\U{1680}' || ('\U{2000}' <= c <= '\U{200A}') || c == '\U{2028}' || c == '\U{2029}'
    || c == '\U{202F}' || c == '\U{205F}' || c == '\U{3000}'
  }

  function TrimLeading(s: string): (r: string)
    ensures |r| <= |s| && r == s[|s| - |r|..]
    ensures r == [] || !IsWhitespace(r[0])
    ensures forall i :: 0 <= i < |s| - |r| ==> IsWhitespace(s[i])
  {
    if s != [] && IsWhitespace(s[0]) then TrimLeading(s[1..]) else s
  }

  function TrimTrailing(s: string): (r: string)
    ensures |r| <= |s| && r == s[..|r|]
    ensures r == [] || !IsWhitespace(r[|r| - 1])
    ensures forall i :: |r| <= i < |s| ==> IsWhitespace(s[i])
  {
    if s != [] && IsWhitespace(s[|s| - 1]) then TrimTrailing(s[..|s| - 1]) else s
  }

  /** `s` with white space removed from both ends. */
  function Trim(s: string): string
  {
    TrimTrailing(TrimLeading(s))
  }

  /**
   * `r` is the piece of `s` starting at `i`, everything cut off before and
   * after it is white space, and it neither starts nor ends with white space.
   */
  ghost predicate TrimmedAt(s: string, r: string, i: nat) {
    && i + |r| <= |s| && r == s[i..i + |r|]
    && (forall k :: 0 <= k < i ==> IsWhitespace(s[k]))
    && (forall k :: i + |r| <= k < |s| ==> IsWhitespace(s[k]))
    && (r == [] || (!IsWhitespace(r[0]) && !IsWhitespace(r[|r| - 1])))
  }

  /** `Trim` cuts exactly the white space at both ends. */
  lemma TrimSpec(s: string) returns (i: nat)
    ensures TrimmedAt(s, Trim(s), i)
  {
    var l := TrimLeading(s);
    var r := TrimTrailing(l);
    i := |s| - |l|;
    TrimParts(s, l, r, i);
  }

  /** The facts about both cuts, over plain strings. */
  lemma TrimParts(s: string, l: string, r: string, i: nat)
    requires i + |l| == |s| && l == s[i..]
    requires l == [] || !IsWhitespace(l[0])
    requires |r| <= |l| && r == l[..|r|]
    requires forall k :: 0 <= k < i ==> IsWhitespace(s[k])
    requires forall k :: |r| <= k < |l| ==> IsWhitespace(l[k])
    requires r == [] || !IsWhitespace(r[|r| - 1])
    ensures TrimmedAt(s, r, i)
  {
    if r != [] {
      assert r[0] == l[0];
    }
    TailCut(s, l, r, i);
  }

  /** What is cut from the end of the suffix `l` of `s` is cut from the end of `s`. */
  lemma TailCut(s: string, l: string, r: string, i: nat)
    requires i + |l| == |s| && l == s[i..] && |r| <= |l|
    requires forall k :: |r| <= k < |l| ==> IsWhitespace(l[k])
    ensures forall k :: i + |r| <= k < |s| ==> IsWhitespace(s[k])
  {
    forall k | i + |r| <= k < |s| ensures IsWhitespace(s[k]) {
      assert s[k] == l[k - i];
    }
  }

  lemma {:induction false} TrimEmptyIffBlank(s: string)
    ensures Trim(s) == [] <==> forall i :: 0 <= i < |s| ==> IsWhitespace(s[i])
    decreases |s|
  {
    var l := TrimLeading(s);
    if l != [] {
      assert !IsWhitespace(l[0]);
      assert TrimTrailing(l) != [] by {
        assert !IsWhitespace(l[0]);
        TrimTrailingKeepsHead(l);
      }
      assert s[|s| - |l|] == l[0];
    }
  }

  lemma {:induction false} TrimTrailingKeepsHead(s: string)
    requires s != [] && !IsWhitespace(s[0])
    ensures TrimTrailing(s) != []
    decreases |s|
  {
    if IsWhitespace(s[|s| - 1]) {
      TrimTrailingKeepsHead(s[..|s| - 1]);
    }
  }

  lemma TrimIdempotent(s: string)
    ensures Trim(Trim(s)) == Trim(s)
  {
    var _ := TrimSpec(s);
  }
}
