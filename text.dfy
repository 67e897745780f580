/**
 * Text helpers: decimal digits, zero-padded fields, Python's `s[-4:]`,
 * Python's code-point string order, and the sorted distinct keys that a
 * pandas `groupby` iterates over.
 */
module Text {

  predicate IsDigit(c: char) { '0' <= c <= '9' }

  predicate AllDigits(s: string) { forall i :: 0 <= i < |s| ==> IsDigit(s[i]) }

  function Pow10(n: nat): (p: nat)
    ensures p >= 1
  {
    if n == 0 then 1 else 10 * Pow10(n - 1)
  }

  function DigitChar(d: int): (c: char)
    requires 0 <= d < 10
    ensures IsDigit(c)
  {
    ('0' as int + d) as char
  }

  function DigitValue(c: char): (d: int)
    requires IsDigit(c)
    ensures 0 <= d < 10 && DigitChar(d) == c
  {
    c as int - '0' as int
  }

  /** The number a string of decimal digits denotes (most significant first). */
  function ParseNat(s: string): (n: nat)
    requires AllDigits(s)
    ensures n < Pow10(|s|)
  {
    if s == [] then 0 else ParseNat(s[..|s| - 1]) * 10 + DigitValue(s[|s| - 1])
  }

  /** `n` written with exactly `width` digits, zero-padded on the left. */
  function PadNat(n: nat, width: nat): (s: string)
    requires n < Pow10(width)
    ensures |s| == width && AllDigits(s)
  {
    if width == 0 then [] else PadNat(n / 10, width - 1) + [DigitChar(n % 10)]
  }

  lemma {:induction false} ParsePadNat(n: nat, width: nat)
    requires n < Pow10(width)
    ensures ParseNat(PadNat(n, width)) == n
  {
    if width > 0 {
      var s := PadNat(n, width);
      assert s[..|s| - 1] == PadNat(n / 10, width - 1);
      ParsePadNat(n / 10, width - 1);
    }
  }

  lemma {:induction false} PadParseNat(s: string)
    requires AllDigits(s)
    ensures PadNat(ParseNat(s), |s|) == s
  {
    if s != [] {
      var k := |s| - 1;
      var p := ParseNat(s[..k]);
      var d := DigitValue(s[k]);
      assert (p * 10 + d) / 10 == p && (p * 10 + d) % 10 == d;
      PadParseNat(s[..k]);
      assert s == s[..k] + [s[k]];
    }
  }

  /** Python's `str(n)` for a non-negative integer. */
  function NatToString(n: nat): (s: string)
    ensures |s| >= 1 && AllDigits(s)
  {
    if n < 10 then [DigitChar(n)] else NatToString(n / 10) + [DigitChar(n % 10)]
  }

  /** Python's `str(i)` for an integer. */
  function IntToString(i: int): string
  {
    if i < 0 then "-" + NatToString(-i) else NatToString(i)
  }

  /** `str(n)` has no leading zero: it starts with a zero only when it is "0". */
  lemma {:induction false} NatToStringNoLeadingZero(n: nat)
    ensures n >= 1 ==> NatToString(n)[0] != '0'
    ensures |NatToString(n)| == 1 || NatToString(n)[0] != '0'
  {
    if n >= 10 {
      NatToStringNoLeadingZero(n / 10);
      assert NatToString(n)[0] == NatToString(n / 10)[0];
    }
  }

  lemma {:induction false} ParseNatToString(n: nat)
    ensures ParseNat(NatToString(n)) == n
  {
    if n >= 10 {
      var s := NatToString(n);
      assert s[..|s| - 1] == NatToString(n / 10);
      ParseNatToString(n / 10);
    }
  }

  /** Python's `s[-4:]`: the last four characters, or all of `s` when shorter. */
  function LastFour(s: string): (r: string)
    ensures |r| <= 4 && |r| <= |s|
    ensures |s| <= 4 ==> r == s
    ensures |s| > 4 ==> |r| == 4 && r == s[|s| - 4..]
  {
    if |s| <= 4 then s else s[|s| - 4..]
  }

  /** Python's `a < b` on `str`: lexicographic by code point, a proper prefix first. */
  predicate StrLt(a: string, b: string)
  {
    if a == [] then b != []
    else if b == [] then false
    else if a[0] != b[0] then a[0] < b[0]
    else StrLt(a[1..], b[1..])
  }

  lemma {:induction false} StrLtTotal(a: string, b: string)
    requires a != b
    ensures StrLt(a, b) || StrLt(b, a)
  {
    if a != [] && b != [] && a[0] == b[0] {
      assert a == [a[0]] + a[1..] && b == [b[0]] + b[1..];
      StrLtTotal(a[1..], b[1..]);
    }
  }

  lemma {:induction false} StrLtTransitive(a: string, b: string, c: string)
    requires StrLt(a, b) && StrLt(b, c)
    ensures StrLt(a, c)
  {
    if a != [] && b != [] && c != [] && a[0] == b[0] && b[0] == c[0] {
      StrLtTransitive(a[1..], b[1..], c[1..]);
    }
  }

  predicate StrictlyAscending(s: seq<string>)
  {
    forall i, j :: 0 <= i < j < |s| ==> StrLt(s[i], s[j])
  }

  /** Inserts `x` into an ascending list of distinct strings, keeping it so. */
  function InsertKey(x: string, s: seq<string>): (r: seq<string>)
    requires StrictlyAscending(s)
    ensures StrictlyAscending(r)
    ensures forall y :: y in r <==> y in s || y == x
  {
    if s == [] then [x]
    else if x == s[0] then s
    else if StrLt(x, s[0]) then
      assert forall j :: 0 < j < |s| ==> StrLt(x, s[j]) by {
        forall j | 0 < j < |s| ensures StrLt(x, s[j]) { StrLtTransitive(x, s[0], s[j]); }
      }
      [x] + s
    else
      StrLtTotal(x, s[0]);
      var t := InsertKey(x, s[1..]);
      assert forall y :: y in t ==> StrLt(s[0], y);
      [s[0]] + t
  }

  /**
   * The distinct strings of `xs` in ascending order: the order in which a
   * pandas `groupby` (with its default `sort=True`) lists its groups.
   */
  function SortedDistinct(xs: seq<string>): (r: seq<string>)
    ensures StrictlyAscending(r)
    ensures forall y :: y in r <==> y in xs
  {
    if xs == [] then []
    else
      var r := InsertKey(xs[|xs| - 1], SortedDistinct(xs[..|xs| - 1]));
      assert forall y :: y in xs <==> y in xs[..|xs| - 1] || y == xs[|xs| - 1] by {
        assert xs == xs[..|xs| - 1] + [xs[|xs| - 1]];
      }
      r
  }
}
