/** The JavaScript string operations the storefront relies on: `trim`,
    `split(sep)[0]`, `split(sep).pop()`, `replace(/[^0-9]/g, "")`,
    `slice(-n)`, `slice(0, n)`, `padStart` and `Number.prototype.toString(radix)`,
    stated over Dafny strings. */
module JsText {

  /** The code points ECMAScript's WhiteSpace and LineTerminator productions
      accept: exactly what `String.prototype.trim` strips from both ends. */
  predicate IsWhitespace(c: char) {
    c in SingleSpaces || '\U{2000}' <= c <= '\U{200A}'
  }

  /** The white-space code points outside the block U+2000 to U+200A. */
  const SingleSpaces: set<char> := {
    '\t', '\n', '\U{000B}', '\U{000C}', '\r', ' ', '\U{00A0}', '\U{1680}',
    '\U{2028}', '\U{2029}', '\U{202F}', '\U{205F}', '\U{3000}', '\U{FEFF}'
  }

  /** A string that `trim` turns into "" (JavaScript's `!s.trim()`). */
  predicate IsBlank(s: string) {
    forall i :: 0 <= i < |s| ==> IsWhitespace(s[i])
  }

  function TrimStart(s: string): (r: string)
    ensures |r| <= |s| && r == s[|s| - |r|..]
    ensures forall i :: 0 <= i < |s| - |r| ==> IsWhitespace(s[i])
    ensures r == [] || !IsWhitespace(r[0])
  {
    if s != [] && IsWhitespace(s[0]) then TrimStart(s[1..]) else s
  }

  function TrimEnd(s: string): (r: string)
    ensures |r| <= |s| && r == s[..|r|]
    ensures forall i :: |r| <= i < |s| ==> IsWhitespace(s[i])
    ensures r == [] || !IsWhitespace(r[|r| - 1])
  {
    if s != [] && IsWhitespace(s[|s| - 1]) then TrimEnd(s[..|s| - 1]) else s
  }

  /** `s.trim()`: the part of `s` between its leading and trailing whitespace. */
  function Trim(s: string): (r: string)
    ensures |r| <= |s|
    ensures r == [] || (!IsWhitespace(r[0]) && !IsWhitespace(r[|r| - 1]))
    ensures r == [] <==> IsBlank(s)
  {
    TrimEnd(TrimStart(s))
  }

  /** A string with no whitespace at either end is its own trim. */
  lemma TrimOfTrimmed(s: string)
    requires s == [] || (!IsWhitespace(s[0]) && !IsWhitespace(s[|s| - 1]))
    ensures Trim(s) == s
  {
    assert TrimStart(s) == s;
    assert TrimEnd(s) == s;
  }

  /** Trimming twice is trimming once. */
  lemma TrimIdempotent(s: string)
    ensures Trim(Trim(s)) == Trim(s)
  {
    TrimOfTrimmed(Trim(s));
  }

  /** `s.split(sep)[0]`: everything before the first `sep`, or all of `s`. */
  function BeforeFirst(s: string, sep: char): (r: string)
    ensures |r| <= |s| && r == s[..|r|]
    ensures sep !in r
    ensures |r| < |s| ==> s[|r|] == sep
  {
    if s == [] || s[0] == sep then [] else [s[0]] + BeforeFirst(s[1..], sep)
  }

  /** `s.split(sep).pop()`: everything after the last `sep`, or all of `s`.
      `split` always yields at least one piece, so this is never undefined. */
  function AfterLast(s: string, sep: char): (r: string)
    ensures |r| <= |s| && r == s[|s| - |r|..]
    ensures sep !in r
    ensures |r| < |s| ==> s[|s| - |r| - 1] == sep
  {
    if s == [] || s[|s| - 1] == sep then [] else AfterLast(s[..|s| - 1], sep) + [s[|s| - 1]]
  }

  /** The last piece of `prefix + [sep] + tail` is `tail` when `tail` holds no `sep`. */
  lemma {:induction false} AfterLastOfJoin(prefix: string, sep: char, tail: string)
    requires sep !in tail
    ensures AfterLast(prefix + [sep] + tail, sep) == tail
  {
    var s := prefix + [sep] + tail;
    var r := AfterLast(s, sep);
    assert s[|prefix|] == sep;
    assert s[|prefix| + 1..] == tail;
  }

  predicate IsDigit(c: char) {
    '0' <= c <= '9'
  }

  /** No digit is white space, so `trim` leaves a string of digits as it is. */
  lemma TrimDigits(s: string)
    requires forall i :: 0 <= i < |s| ==> IsDigit(s[i])
    ensures Trim(s) == s
  {
    if s != [] {
      assert !IsWhitespace(s[0]) && !IsWhitespace(s[|s| - 1]);
      TrimOfTrimmed(s);
    }
  }

  /** `s.replace(/[^0-9]/g, "")`: the decimal digits of `s`, in order. */
  function KeepDigits(s: string): (r: string)
    ensures |r| <= |s|
    ensures forall i :: 0 <= i < |r| ==> IsDigit(r[i])
    ensures forall i :: 0 <= i < |s| && IsDigit(s[i]) ==> s[i] in r
  {
    if s == [] then []
    else if IsDigit(s[0]) then [s[0]] + KeepDigits(s[1..])
    else KeepDigits(s[1..])
  }

  /** Digits are kept in order: the digits of a concatenation are the
      concatenation of the digits. */
  lemma {:induction false} KeepDigitsAppend(s: string, t: string)
    ensures KeepDigits(s + t) == KeepDigits(s) + KeepDigits(t)
  {
    if s == [] {
      assert s + t == t;
    } else {
      assert (s + t)[0] == s[0] && (s + t)[1..] == s[1..] + t;
      KeepDigitsAppend(s[1..], t);
    }
  }

  /** A string of digits only is kept whole. */
  lemma {:induction false} KeepDigitsOfDigits(s: string)
    requires forall i :: 0 <= i < |s| ==> IsDigit(s[i])
    ensures KeepDigits(s) == s
  {
    if s != [] {
      KeepDigitsOfDigits(s[1..]);
    }
  }

  /** `s.slice(-n)` for n > 0: the last `n` characters, or all of `s` if shorter. */
  function TakeLast(s: string, n: nat): (r: string)
    ensures |r| == if |s| < n then |s| else n
    ensures r == s[|s| - |r|..]
  {
    if |s| <= n then s else s[|s| - n..]
  }

  /** `s.slice(0, n)`: the first `n` characters, or all of `s` if shorter. */
  function Take(s: string, n: nat): (r: string)
    ensures |r| == if |s| < n then |s| else n
    ensures r == s[..|r|]
  {
    if |s| <= n then s else s[..n]
  }

  // ---------------------------------------------------------------------
  // Number rendering: `n.toString(radix)` for non-negative integers.
  // ---------------------------------------------------------------------

  /** The digit JavaScript prints for the value `d` (lower-case letters above 9). */
  function DigitChar(d: nat): (c: char)
    requires d < 16
    ensures IsLowerHex(c)
    ensures DigitValue(c) == d
    ensures d < 10 <==> IsDigit(c)
  {
    if d < 10 then ('0' as int + d) as char else ('a' as int + d - 10) as char
  }

  predicate IsLowerHex(c: char) {
    IsDigit(c) || 'a' <= c <= 'f'
  }

  /** The value of one digit; characters that are not digits read as 0. */
  function DigitValue(c: char): nat {
    if IsDigit(c) then c as int - '0' as int
    else if 'a' <= c <= 'f' then c as int - 'a' as int + 10
    else 0
  }

  /** `n.toString(base)`: no leading zeros, and "0" for zero. */
  function NatToString(n: nat, base: nat): (r: string)
    requires 2 <= base <= 16
    ensures |r| >= 1
    decreases n
  {
    if n < base then [DigitChar(n)] else NatToString(n / base, base) + [DigitChar(n % base)]
  }

  /** Every character of the rendering is a lower-case digit of the base. */
  lemma {:induction false} NatToStringDigits(n: nat, base: nat)
    requires 2 <= base <= 16
    ensures forall i :: 0 <= i < |NatToString(n, base)| ==> DigitOf(NatToString(n, base)[i], base)
    decreases n
  {
    if n < base {
      DigitCharOf(n, base);
    } else {
      NatToStringDigits(n / base, base);
      DigitCharOf(n % base, base);
      AppendDigit(NatToString(n / base, base), DigitChar(n % base), base);
    }
  }

  lemma DigitCharOf(d: nat, base: nat)
    requires d < base <= 16
    ensures DigitOf(DigitChar(d), base)
  {
  }

  lemma AppendDigit(head: string, last: char, base: nat)
    requires forall i :: 0 <= i < |head| ==> DigitOf(head[i], base)
    requires DigitOf(last, base)
    ensures forall i :: 0 <= i < |head + [last]| ==> DigitOf((head + [last])[i], base)
  {
  }

  /** `c` is a lower-case digit of `base`; of a base up to ten, a decimal digit. */
  predicate DigitOf(c: char, base: nat) {
    && IsLowerHex(c) && DigitValue(c) < base
    && (base <= 10 ==> IsDigit(c))
  }

  /** Reads a string of digits in the given base, most significant first. */
  function ParseNat(s: string, base: nat): nat
    decreases |s|
  {
    if s == [] then 0 else ParseNat(s[..|s| - 1], base) * base + DigitValue(s[|s| - 1])
  }

  /** Rendering then parsing gives the number back. */
  lemma {:induction false} ParseNatToString(n: nat, base: nat)
    requires 2 <= base <= 16
    ensures ParseNat(NatToString(n, base), base) == n
    decreases n
  {
    var r := NatToString(n, base);
    if n < base {
      assert r[..0] == [];
      assert ParseNat(r, base) == ParseNat([], base) * base + n;
    } else {
      var q, d := n / base, n % base;
      var head := NatToString(q, base);
      assert r == head + [DigitChar(d)];
      assert r[..|r| - 1] == head;
      DivLess(n, base);
      ParseNatToString(q, base);
      DigitStep(ParseNat(head, base), base, n);
    }
  }

  /** The last step of reading a rendered number: the leading digits' value
      times the base, plus the last digit. */
  lemma DigitStep(p: nat, b: nat, n: nat)
    requires 0 < b && p == n / b
    ensures p * b + n % b == n
  {
  }

  /** Dividing by a base of at least 2 shrinks a number that is at least the base. */
  lemma DivLess(n: nat, b: nat)
    requires 2 <= b <= n
    ensures n / b < n
  {
    var q := n / b;
    assert n == q * b + n % b;
  }

  function Pow(b: nat, k: nat): nat {
    if k == 0 then 1 else b * Pow(b, k - 1)
  }

  /** A number below `base^k` needs at most `k` digits. */
  lemma {:induction false} NatToStringLength(n: nat, base: nat, k: nat)
    requires 2 <= base <= 16 && 1 <= k && n < Pow(base, k)
    ensures |NatToString(n, base)| <= k
    decreases n
  {
    if n >= base {
      assert k >= 2;
      DivBelow(n, base, Pow(base, k - 1));
      DivLess(n, base);
      NatToStringLength(n / base, base, k - 1);
    }
  }

  /** `a < b * c` gives `a / b < c`. */
  lemma DivBelow(a: nat, b: nat, c: nat)
    requires 0 < b && a < b * c
    ensures a / b < c
  {
  }

  /** Leading zeros do not change the value of a digit string. */
  lemma {:induction false} ParseLeadingZeros(z: string, s: string, base: nat)
    requires forall i :: 0 <= i < |z| ==> z[i] == '0'
    ensures ParseNat(z + s, base) == ParseNat(s, base)
    decreases |s|
  {
    if s == [] {
      assert z + s == z;
      AllZerosParseToZero(z, base);
    } else {
      assert (z + s)[..|z + s| - 1] == z + s[..|s| - 1];
      ParseLeadingZeros(z, s[..|s| - 1], base);
    }
  }

  lemma {:induction false} AllZerosParseToZero(z: string, base: nat)
    requires forall i :: 0 <= i < |z| ==> z[i] == '0'
    ensures ParseNat(z, base) == 0
    decreases |z|
  {
    if z != [] {
      AllZerosParseToZero(z[..|z| - 1], base);
    }
  }

  function Repeat(c: char, n: nat): (r: string)
    ensures |r| == n && forall i :: 0 <= i < n ==> r[i] == c
  {
    if n == 0 then [] else [c] + Repeat(c, n - 1)
  }

  /** `s.padStart(width, c)`: `c` repeated on the left up to `width` characters;
      a string already that long is returned unchanged. */
  function PadStart(s: string, width: nat, c: char): (r: string)
    ensures |r| == if |s| < width then width else |s|
    ensures r[|r| - |s|..] == s
    ensures forall i :: 0 <= i < |r| - |s| ==> r[i] == c
  {
    if |s| < width then Repeat(c, width - |s|) + s else s
  }

  /** The decimal rendering of `n` padded with zeros to `width` digits reads
      back as `n` and is exactly `width` digits long when `n < 10^width`. */
  lemma PaddedDecimal(n: nat, width: nat)
    requires 1 <= width && n < Pow(10, width)
    ensures |PadStart(NatToString(n, 10), width, '0')| == width
    ensures forall i :: 0 <= i < width ==> IsDigit(PadStart(NatToString(n, 10), width, '0')[i])
    ensures ParseNat(PadStart(NatToString(n, 10), width, '0'), 10) == n
  {
    NatToStringDigits(n, 10);
    NatToStringLength(n, 10, width);
    ParseNatToString(n, 10);
    PadZeros(NatToString(n, 10), width, n);
  }

  lemma PadZeros(s: string, width: nat, n: nat)
    requires |s| <= width
    requires forall i :: 0 <= i < |s| ==> DigitOf(s[i], 10)
    requires ParseNat(s, 10) == n
    ensures |PadStart(s, width, '0')| == width
    ensures forall i :: 0 <= i < width ==> IsDigit(PadStart(s, width, '0')[i])
    ensures ParseNat(PadStart(s, width, '0'), 10) == n
  {
    var z := Repeat('0', width - |s|);
    assert PadStart(s, width, '0') == z + s;
    ParseLeadingZeros(z, s, 10);
  }
}
