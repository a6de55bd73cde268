/** The string primitives the key derivation relies on: Go's `strings.Index`,
    `strings.LastIndex` and `strings.ToLower`, and decimal rendering as done by
    `strconv.Itoa` and the `%d` verb. A Go string is a sequence of bytes; here it
    is a sequence of characters, one character standing for one byte. */
module Strings {

  type String = seq<char>

  /** `sub` occurs in `s` starting at position `i`. */
  predicate OccursAt(s: String, sub: String, i: int)
  {
    0 <= i && i + |sub| <= |s| && s[i..i + |sub|] == sub
  }

  /** A one-character pattern occurs exactly where that character stands. */
  lemma OccursAtChar(s: String, c: char, i: int)
    ensures OccursAt(s, [c], i) <==> 0 <= i < |s| && s[i] == c
  {
    if 0 <= i < |s| {
      assert s[i..i + 1] == [s[i]];
    }
  }

  /** The first occurrence of `sub` at a position `from` or later, or -1. */
  function IndexFrom(s: String, sub: String, from: nat): (r: int)
    ensures r == -1 || (from <= r && OccursAt(s, sub, r))
    ensures forall k :: from <= k && (r == -1 || k < r) ==> !OccursAt(s, sub, k)
    decreases |s| + 1 - from
  {
    if from > |s| then -1
    else if OccursAt(s, sub, from) then from
    else IndexFrom(s, sub, from + 1)
  }

  /** `strings.Index`: the position of the first occurrence of `sub` in `s`,
      or -1 when there is none. */
  function Index(s: String, sub: String): (r: int)
    ensures r >= 0 ==> OccursAt(s, sub, r) && forall k :: 0 <= k < r ==> !OccursAt(s, sub, k)
    ensures r < 0 ==> r == -1 && forall k :: !OccursAt(s, sub, k)
  {
    IndexFrom(s, sub, 0)
  }

  /** The last occurrence of `sub` at a position below `hi`, or -1. */
  function LastIndexBelow(s: String, sub: String, hi: nat): (r: int)
    ensures -1 <= r < hi
    ensures r >= 0 ==> OccursAt(s, sub, r)
    ensures forall k :: r < k < hi ==> !OccursAt(s, sub, k)
  {
    if hi == 0 then -1
    else if OccursAt(s, sub, hi - 1) then hi - 1
    else LastIndexBelow(s, sub, hi - 1)
  }

  /** `strings.LastIndex`: the position of the last occurrence of `sub` in `s`,
      or -1 when there is none. */
  function LastIndex(s: String, sub: String): (r: int)
    ensures r >= 0 ==> OccursAt(s, sub, r)
    ensures forall k :: r < k ==> !OccursAt(s, sub, k)
    ensures r >= -1
  {
    LastIndexBelow(s, sub, |s| + 1)
  }

  /** `LastIndex` of a one-character pattern, in terms of the characters. */
  lemma LastIndexOfChar(s: String, c: char)
    ensures var r := LastIndex(s, [c]);
      && -1 <= r < |s| && (r >= 0 ==> s[r] == c)
      && forall k :: r < k < |s| ==> s[k] != c
  {
    var r := LastIndex(s, [c]);
    OccursAtChar(s, c, r);
    forall k | r < k < |s| ensures s[k] != c {
      OccursAtChar(s, c, k);
    }
  }

  predicate IsUpper(c: char) { 'A' <= c <= 'Z' }

  predicate IsLower(c: char) { 'a' <= c <= 'z' }

  /** Case mapping of one character, on the ASCII letters. */
  function LowerChar(c: char): char
  {
    if IsUpper(c) then (c as int + 32) as char else c
  }

  function UpperChar(c: char): char
  {
    if IsLower(c) then (c as int - 32) as char else c
  }

  /** `strings.ToLower`, on the ASCII letters. */
  function ToLower(s: String): (r: String)
    ensures |r| == |s|
    ensures forall i :: 0 <= i < |s| ==> r[i] == LowerChar(s[i])
  {
    if s == [] then [] else [LowerChar(s[0])] + ToLower(s[1..])
  }

  /** `s` spells `t` with any of `t`'s letters possibly in upper case. */
  predicate IsCasingOf(s: String, t: String)
  {
    |s| == |t| && forall i :: 0 <= i < |s| ==> s[i] == t[i] || s[i] == UpperChar(t[i])
  }

  /** Lower-casing `s` gives a string `t` free of upper-case letters exactly
      when `s` is `t` in some mix of cases. */
  lemma ToLowerIsCaseInsensitive(s: String, t: String)
    requires forall i :: 0 <= i < |t| ==> !IsUpper(t[i])
    ensures ToLower(s) == t <==> IsCasingOf(s, t)
  {
    if IsCasingOf(s, t) {
      forall i | 0 <= i < |s| ensures ToLower(s)[i] == t[i] {
        assert LowerChar(s[i]) == t[i];
      }
    }
    if ToLower(s) == t {
      forall i | 0 <= i < |s| ensures s[i] == t[i] || s[i] == UpperChar(t[i]) {
        assert LowerChar(s[i]) == t[i];
      }
    }
  }

  predicate IsDigit(c: char) { '0' <= c <= '9' }

  predicate AllDigits(s: String)
  {
    forall i :: 0 <= i < |s| ==> IsDigit(s[i])
  }

  function DigitChar(d: nat): (c: char)
    requires d < 10
    ensures IsDigit(c)
  {
    ('0' as int + d) as char
  }

  function DigitValue(c: char): (d: nat)
    requires IsDigit(c)
    ensures d < 10 && DigitChar(d) == c
  {
    c as int - '0' as int
  }

  /** `strconv.Itoa` and `%d` on a non-negative number: its decimal digits,
      without leading zeros. */
  function Decimal(n: nat): (r: String)
    ensures AllDigits(r)
    ensures |r| >= 1 && (r[0] == '0' ==> n == 0)
    ensures |r| <= 1 <==> n < 10
    ensures |r| <= 2 <==> n < 100
    ensures |r| <= 3 <==> n < 1000
    ensures |r| <= 4 <==> n < 10000
  {
    if n < 10 then [DigitChar(n)] else Decimal(n / 10) + [DigitChar(n % 10)]
  }

  /** The value of a string of decimal digits (the reading-back direction). */
  function ParseDecimal(s: String): nat
    requires AllDigits(s)
  {
    if s == [] then 0 else 10 * ParseDecimal(s[..|s| - 1]) + DigitValue(s[|s| - 1])
  }

  /** Reading back the rendering of `n` gives `n`. */
  lemma {:induction false} ParseDecimalOfDecimal(n: nat)
    ensures ParseDecimal(Decimal(n)) == n
  {
    if n >= 10 {
      var r := Decimal(n);
      assert r[..|r| - 1] == Decimal(n / 10);
      ParseDecimalOfDecimal(n / 10);
    }
  }

  /** Left-pads a digit string with zeros up to `width` characters, as Go's
      fixed-width date fields do. */
  function ZeroPad(s: String, width: nat): (r: String)
    ensures |r| == if |s| < width then width else |s|
  {
    if |s| >= width then s else "0" + ZeroPad(s, width - 1)
  }

  /** A leading zero does not change the value of a digit string. */
  lemma {:induction false} ParseDecimalLeadingZero(s: String)
    requires AllDigits(s)
    ensures AllDigits("0" + s) && ParseDecimal("0" + s) == ParseDecimal(s)
  {
    if s != [] {
      var t := "0" + s;
      assert t[..|t| - 1] == "0" + s[..|s| - 1];
      ParseDecimalLeadingZero(s[..|s| - 1]);
    }
  }

  /** Zero padding keeps a digit string a digit string and keeps its value. */
  lemma {:induction false} ParseDecimalZeroPad(s: String, width: nat)
    requires AllDigits(s)
    ensures AllDigits(ZeroPad(s, width)) && ParseDecimal(ZeroPad(s, width)) == ParseDecimal(s)
    decreases width
  {
    if |s| < width {
      ParseDecimalZeroPad(s, width - 1);
      ParseDecimalLeadingZero(ZeroPad(s, width - 1));
    }
  }
}
