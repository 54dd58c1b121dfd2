/**
 * The string operations the views use: `toLowerCase`, `includes`, decimal
 * formatting of integers in template literals, `parseInt` and `split`.
 */
module Text {
  import opened Common

  // ---------------------------------------------------------------------
  // toLowerCase / includes
  // ---------------------------------------------------------------------

  /** Lower-cases the ASCII letters A-Z; every other character is kept. */
  function LowerChar(c: char): char
  {
    if 'A' <= c <= 'Z' then (c as int + 32) as char else c
  }

  function ToLower(s: string): string
  {
    seq(|s|, i requires 0 <= i < |s| => LowerChar(s[i]))
  }

  /** Lower-casing twice is lower-casing once. */
  lemma ToLowerIdempotent(s: string)
    ensures ToLower(ToLower(s)) == ToLower(s)
  {
  }

  /** `needle` occurs in `hay` starting at index `i`. */
  predicate OccursAt(hay: string, needle: string, i: nat)
  {
    i + |needle| <= |hay| && hay[i..i + |needle|] == needle
  }

  /** `hay.includes(needle)`. */
  predicate Contains(hay: string, needle: string)
  {
    exists i: nat | i <= |hay| :: OccursAt(hay, needle, i)
  }

  // ---------------------------------------------------------------------
  // Decimal text of integers, and parseInt
  // ---------------------------------------------------------------------

  predicate IsDigit(c: char) { '0' <= c <= '9' }

  predicate AllDigits(s: string) { forall i :: 0 <= i < |s| ==> IsDigit(s[i]) }

  function DigitChar(d: nat): (c: char)
    requires d < 10
    ensures IsDigit(c)
  {
    ('0' as int + d) as char
  }

  function DigitValue(c: char): nat
    requires IsDigit(c)
  {
    c as int - '0' as int
  }

  /** Decimal digits of `n`, most significant first, without leading zeros. */
  function NatToString(n: nat): (s: string)
    ensures |s| > 0 && AllDigits(s)
    decreases n
  {
    if n < 10 then [DigitChar(n)] else NatToString(n / 10) + [DigitChar(n % 10)]
  }

  /** `${i}` for an integer value. */
  function IntToString(i: int): (s: string)
    ensures |s| > 0 && s[0] != ' '
    ensures forall k :: 0 < k < |s| ==> IsDigit(s[k])
    ensures IsDigit(s[0]) || s[0] == '-'
  {
    if i < 0 then "-" + NatToString(-i) else NatToString(i)
  }

  /** The value of a string of decimal digits. */
  function DigitsValue(ds: string): nat
    requires AllDigits(ds)
  {
    if ds == [] then 0 else DigitsValue(ds[..|ds| - 1]) * 10 + DigitValue(ds[|ds| - 1])
  }

  /** Length of the longest prefix of `s` made of decimal digits. */
  function DigitPrefixLength(s: string): (k: nat)
    ensures k <= |s| && AllDigits(s[..k])
    ensures k < |s| ==> !IsDigit(s[k])
  {
    if s == [] || !IsDigit(s[0]) then 0
    else
      var k := 1 + DigitPrefixLength(s[1..]);
      assert s[..k] == [s[0]] + s[1..][..k - 1];
      k
  }

  predicate IsSpace(c: char) { c == ' ' || c == '\t' || c == '\n' || c == '\r' }

  function TrimStart(s: string): (r: string)
    ensures |r| <= |s|
    ensures r == [] || !IsSpace(r[0])
  {
    if s != [] && IsSpace(s[0]) then TrimStart(s[1..]) else s
  }

  /**
   * `parseInt(s)` on decimal text: leading white space is skipped, an optional
   * sign is read, then the longest run of digits; with no digit the result is
   * NaN, modelled as None.
   */
  function ParseInt(s: string): Option<int>
  {
    var t := TrimStart(s);
    var negative := |t| > 0 && t[0] == '-';
    var body := if |t| > 0 && (t[0] == '-' || t[0] == '+') then t[1..] else t;
    var k := DigitPrefixLength(body);
    if k == 0 then None
    else
      var v: int := DigitsValue(body[..k]);
      Some(if negative then -v else v)
  }

  lemma {:induction false} NatToStringValue(n: nat)
    ensures DigitsValue(NatToString(n)) == n
    decreases n
  {
    var s := NatToString(n);
    if n >= 10 {
      NatToStringValue(n / 10);
      assert s[..|s| - 1] == NatToString(n / 10);
    }
  }

  lemma DigitPrefixOfDigits(s: string)
    requires AllDigits(s)
    ensures DigitPrefixLength(s) == |s|
  {
  }

  /** Reading back the decimal text of an integer gives the integer. */
  lemma ParseIntOfIntToString(i: int)
    ensures ParseInt(IntToString(i)) == Some(i)
  {
    var s := IntToString(i);
    assert TrimStart(s) == s;
    var n: nat := if i < 0 then -i else i;
    var digits := NatToString(n);
    assert (if i < 0 then s[1..] else s) == digits;
    DigitPrefixOfDigits(digits);
    NatToStringValue(n);
    assert digits[..|digits|] == digits;
  }

  // ---------------------------------------------------------------------
  // String.prototype.split with a non-empty separator
  // ---------------------------------------------------------------------

  /**
   * Scans `s` for occurrences of `sep`, `cur` being the part read since the
   * last one; the parts between occurrences are returned in order.
   */
  function SplitFrom(s: string, sep: string, cur: string): (parts: seq<string>)
    requires |sep| > 0
    ensures |parts| >= 1
    decreases |s|
  {
    if |s| == 0 then [cur]
    else if sep <= s then [cur] + SplitFrom(s[|sep|..], sep, [])
    else SplitFrom(s[1..], sep, cur + [s[0]])
  }

  /** `s.split(sep)`. */
  function Split(s: string, sep: string): seq<string>
    requires |sep| > 0
  {
    SplitFrom(s, sep, [])
  }

  /** No occurrence of `sep` starts inside the first `n` characters of `s`. */
  ghost predicate NoSeparatorBefore(s: string, sep: string, n: nat)
  {
    forall i :: 0 <= i < n && i <= |s| ==> !(sep <= s[i..])
  }

  /** Characters before the first occurrence of the separator all go into the current part. */
  lemma {:induction false} SplitSkips(a: string, rest: string, sep: string, cur: string)
    requires |sep| > 0
    requires NoSeparatorBefore(a + rest, sep, |a|)
    ensures SplitFrom(a + rest, sep, cur) == SplitFrom(rest, sep, cur + a)
    decreases |a|
  {
    if a != [] {
      var s := a + rest;
      assert s[0..] == s;
      assert !(sep <= s);
      assert SplitFrom(s, sep, cur) == SplitFrom(s[1..], sep, cur + [s[0]]);
      assert s[0] == a[0];
      assert s[1..] == a[1..] + rest;
      forall i | 0 <= i < |a| - 1 && i <= |s[1..]|
        ensures !(sep <= s[1..][i..])
      {
        assert s[1..][i..] == s[i + 1..];
      }
      SplitSkips(a[1..], rest, sep, cur + [a[0]]);
      assert cur + [a[0]] + a[1..] == cur + a;
    } else {
      assert a + rest == rest && cur + a == cur;
    }
  }

  /** An occurrence of the separator closes the current part. */
  lemma SplitAtSeparator(rest: string, sep: string, cur: string)
    requires |sep| > 0
    ensures SplitFrom(sep + rest, sep, cur) == [cur] + SplitFrom(rest, sep, [])
  {
    assert sep <= sep + rest;
    assert (sep + rest)[|sep|..] == rest;
  }

  /** The separator cannot start where the text does not hold its first character. */
  lemma NoSeparatorWithoutFirstChar(a: string, rest: string, sep: string)
    requires |sep| > 0
    requires forall k :: 0 <= k < |a| ==> a[k] != sep[0]
    ensures NoSeparatorBefore(a + rest, sep, |a|)
  {
    var s := a + rest;
    forall i | 0 <= i < |a| && i <= |s|
      ensures !(sep <= s[i..])
    {
      assert s[i..][0] == a[i];
    }
  }

  /** The first part ends at the first occurrence of the separator. */
  lemma SplitFirst(a: string, rest: string, sep: string)
    requires |sep| > 0
    requires NoSeparatorBefore(a + sep + rest, sep, |a|)
    ensures Split(a + sep + rest, sep) == [a] + Split(rest, sep)
  {
    assert a + sep + rest == a + (sep + rest);
    SplitSkips(a, sep + rest, sep, []);
    assert [] + a == a;
    SplitAtSeparator(rest, sep, a);
  }

  /** Separator-free text is a single part. */
  lemma SplitNone(b: string, sep: string)
    requires |sep| > 0
    requires NoSeparatorBefore(b, sep, |b|)
    ensures Split(b, sep) == [b]
  {
    assert b + [] == b;
    SplitSkips(b, [], sep, []);
    assert [] + b == b;
  }
}
