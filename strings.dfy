/** The ECMAScript string built-ins the planner and the processor rely on:
    `String(n)` for integers, `padStart`, `slice`, `lastIndexOf`, `includes`,
    `join`, `trim`, `toLowerCase` (ASCII part) and the `/\r?\n/g` deletion. */
module Strings {

  predicate IsDigit(c: char) { '0' <= c <= '9' }

  function DigitChar(d: nat): (c: char)
    requires d < 10
    ensures IsDigit(c)
  {
    ('0' as int + d) as char
  }

  function DigitValue(c: char): (d: nat)
    requires IsDigit(c)
    ensures d < 10
  {
    c as int - '0' as int
  }

  predicate AllDigits(s: string) { forall k :: 0 <= k < |s| ==> IsDigit(s[k]) }

  /** `String(n)` for a non-negative integer: its decimal digits, without a leading zero. */
  function NatToDecimal(n: nat): (r: string)
    ensures 1 <= |r|
    ensures AllDigits(r)
    ensures r[0] == '0' ==> n == 0
    decreases n
  {
    if n < 10 then [DigitChar(n)] else NatToDecimal(n / 10) + [DigitChar(n % 10)]
  }

  /** `String(i)` for any integer. */
  function IntToString(i: int): (r: string)
    ensures 1 <= |r|
    ensures i >= 0 ==> AllDigits(r)
  {
    if i < 0 then "-" + NatToDecimal(-i) else NatToDecimal(i)
  }

  /** The number a string of decimal digits denotes (leading zeros allowed). */
  function DecimalValue(s: string): nat
    requires AllDigits(s)
  {
    if s == [] then 0 else 10 * DecimalValue(s[..|s| - 1]) + DigitValue(s[|s| - 1])
  }

  lemma {:induction false} DecimalRoundTrip(n: nat)
    ensures DecimalValue(NatToDecimal(n)) == n
    decreases n
  {
    if n >= 10 {
      var r := NatToDecimal(n);
      assert r[..|r| - 1] == NatToDecimal(n / 10);
      DecimalRoundTrip(n / 10);
    }
  }

  lemma {:induction false} ZerosAreZero(z: string)
    requires forall k :: 0 <= k < |z| ==> z[k] == '0'
    ensures AllDigits(z) && DecimalValue(z) == 0
  {
    if z != [] {
      ZerosAreZero(z[..|z| - 1]);
    }
  }

  /** Leading zeros do not change the value of a digit string. */
  lemma {:induction false} LeadingZeros(z: string, s: string)
    requires forall k :: 0 <= k < |z| ==> z[k] == '0'
    requires AllDigits(s)
    ensures AllDigits(z + s) && DecimalValue(z + s) == DecimalValue(s)
  {
    if s == [] {
      assert z + s == z;
      ZerosAreZero(z);
    } else {
      var t := z + s;
      assert t[..|t| - 1] == z + s[..|s| - 1];
      LeadingZeros(z, s[..|s| - 1]);
    }
  }

  /** The decimal width of a number grows with the number. */
  lemma {:induction false} WidthMonotone(a: nat, b: nat)
    requires a <= b
    ensures |NatToDecimal(a)| <= |NatToDecimal(b)|
    decreases b
  {
    if a >= 10 {
      WidthMonotone(a / 10, b / 10);
    }
  }

  function Max(a: int, b: int): int { if a < b then b else a }
  function Min(a: int, b: int): int { if a < b then a else b }

  /** `s.padStart(target, fill)`: when `s` is shorter than `target` and the
      filler is not empty, `fill` is repeated (and cut) in front of `s`. */
  function PadStart(s: string, target: int, fill: string): (r: string)
    ensures |r| == if fill == [] then |s| else Max(|s|, target)
    ensures forall k :: 0 <= k < |s| ==> r[|r| - |s| + k] == s[k]
    ensures |r| > |s| ==> fill != [] && r[..|r| - |s|] == Repeat(fill, |r| - |s|)
  {
    if target <= |s| || fill == [] then s
    else
      var r := Repeat(fill, target - |s|) + s;
      assert r[..|r| - |s|] == Repeat(fill, target - |s|);
      r
  }

  /** The first `n` characters of `fill` repeated without end. */
  function Repeat(fill: string, n: nat): (r: string)
    requires fill != []
    ensures |r| == n && forall k :: 0 <= k < n ==> r[k] == fill[k % |fill|]
  {
    seq(n, k requires 0 <= k < n => fill[k % |fill|])
  }

  /** Padding a number's digits with zeros gives back the number and the larger of the two widths. */
  lemma ZeroPadded(n: nat, width: int)
    ensures AllDigits(PadStart(NatToDecimal(n), width, "0"))
    ensures |PadStart(NatToDecimal(n), width, "0")| == Max(|NatToDecimal(n)|, width)
    ensures DecimalValue(PadStart(NatToDecimal(n), width, "0")) == n
  {
    var d := NatToDecimal(n);
    var r := PadStart(d, width, "0");
    var z := r[..|r| - |d|];
    if |r| > |d| {
      assert z == Repeat("0", |z|);
    }
    assert forall k :: 0 <= k < |z| ==> z[k] == "0"[k % 1];
    assert r == z + d;
    LeadingZeros(z, d);
    DecimalRoundTrip(n);
  }

  /** `${n}`.padStart(width, "0") for a non-negative `n`: decimal digits
      that still spell `n`, as wide as `width` or as `n` needs. */
  function ZeroPad(n: nat, width: int): (r: string)
    ensures AllDigits(r)
  {
    ZeroPadded(n, width);
    PadStart(NatToDecimal(n), width, "0")
  }

  /** The padded digits spell `n` and are as wide as `width` or as `n` needs. */
  lemma ZeroPadMeaning(n: nat, width: int)
    ensures DecimalValue(ZeroPad(n, width)) == n
    ensures |ZeroPad(n, width)| == Max(|NatToDecimal(n)|, width)
    ensures ZeroPad(n, width) == PadStart(IntToString(n), width, "0")
  {
    ZeroPadded(n, width);
  }

  /** Where a (possibly negative) `slice` argument lands in a string of length `len`. */
  function ClampIndex(i: int, len: nat): (r: nat)
    ensures r <= len
    ensures 0 <= i <= len ==> r == i
  {
    if i < 0 then (if len + i < 0 then 0 else len + i) else if i > len then len else i
  }

  /** `s.slice(begin, end)`. */
  function Slice(s: string, begin: int, end: int): (r: string)
    ensures 0 <= begin <= |s| && begin <= end ==> r == s[begin..Min(end, |s|)]
    ensures |r| <= |s|
  {
    var b, e := ClampIndex(begin, |s|), ClampIndex(end, |s|);
    if b >= e then [] else s[b..e]
  }

  /** `s.lastIndexOf(c)` for a one-character search string. */
  function LastIndexOf(s: string, c: char): (r: int)
    ensures -1 <= r < |s|
    ensures r == -1 <==> c !in s
    ensures r >= 0 ==> s[r] == c && forall k :: r < k < |s| ==> s[k] != c
  {
    if s == [] then -1
    else if s[|s| - 1] == c then |s| - 1
    else
      var r := LastIndexOf(s[..|s| - 1], c);
      assert forall x :: x in s ==> x in s[..|s| - 1] || x == s[|s| - 1];
      r
  }

  /** `t` occurs in `s` starting at index `k`. */
  predicate OccursAt(s: string, t: string, k: int) {
    0 <= k <= |s| - |t| && s[k..k + |t|] == t
  }

  /** `s.includes(t)`. */
  predicate Contains(s: string, t: string) {
    exists k | 0 <= k <= |s| :: OccursAt(s, t, k)
  }

  /** `parts.join(sep)`. */
  function Join(parts: seq<string>, sep: string): string {
    if |parts| == 0 then ""
    else if |parts| == 1 then parts[0]
    else parts[0] + sep + Join(parts[1..], sep)
  }

  /** The WhiteSpace and LineTerminator code points of ECMAScript: what `trim` removes and `\s` matches. */
  predicate IsWhitespace(c: char) {
    c == '\t' || c == '\n' || c == '\U{B}' || c == '\U{C}' || c == '\r' || c == ' '
    || c == '\U{A0}' || c == '\U{1680}' || ('\U{2000}' <= c <= '\U{200A}')
    || c == '\U{2028}' || c == '\U{2029}' || c == '\U{202F}' || c == '\U{205F}'
    || c == '\U{3000}' || c == '\U{FEFF}'
  }

  /** `s.trimStart()`. */
  function TrimStart(s: string): string {
    if s != [] && IsWhitespace(s[0]) then TrimStart(s[1..]) else s
  }

  /** `s.trimEnd()`. */
  function TrimEnd(s: string): string {
    if s != [] && IsWhitespace(s[|s| - 1]) then TrimEnd(s[..|s| - 1]) else s
  }

  /** `s.trim()`. */
  function Trim(s: string): string {
    TrimEnd(TrimStart(s))
  }

  /** `trimStart` drops exactly the leading white space. */
  lemma {:induction false} TrimStartMeaning(s: string)
    ensures var r := TrimStart(s);
      && |r| <= |s| && r == s[|s| - |r|..]
      && (forall k :: 0 <= k < |s| - |r| ==> IsWhitespace(s[k]))
      && (r != [] ==> !IsWhitespace(r[0]))
  {
    if s != [] && IsWhitespace(s[0]) {
      var t := s[1..];
      TrimStartMeaning(t);
      var r := TrimStart(t);
      assert TrimStart(s) == r;
      assert s[|s| - |r|..] == t[|t| - |r|..];
      forall k | 0 <= k < |s| - |r| ensures IsWhitespace(s[k]) {
        if k > 0 {
          assert s[k] == t[k - 1];
        }
      }
    }
  }

  /** `trimEnd` drops exactly the trailing white space. */
  lemma {:induction false} TrimEndMeaning(s: string)
    ensures var r := TrimEnd(s);
      && |r| <= |s| && r == s[..|r|]
      && (forall k :: |r| <= k < |s| ==> IsWhitespace(s[k]))
      && (r != [] ==> !IsWhitespace(r[|r| - 1]))
  {
    if s != [] && IsWhitespace(s[|s| - 1]) {
      TrimEndMeaning(s[..|s| - 1]);
    }
  }

  /** The trim of `s` is the piece of `s` left between its leading and its
      trailing white space, and it neither starts nor ends with white space. */
  lemma TrimMeaning(s: string)
    ensures var r := Trim(s);
      exists i, j :: (
        && 0 <= i <= j <= |s| && r == s[i..j]
        && (forall k :: 0 <= k < i ==> IsWhitespace(s[k]))
        && (forall k :: j <= k < |s| ==> IsWhitespace(s[k])))
    ensures var r := Trim(s); r != [] ==> !IsWhitespace(r[0]) && !IsWhitespace(r[|r| - 1])
  {
    TrimPiece(s, |s| - |TrimStart(s)|);
  }

  /** The trim starts where `trimStart` stopped. */
  lemma TrimPiece(s: string, i: int)
    requires i == |s| - |TrimStart(s)|
    ensures var r := Trim(s);
      && 0 <= i <= i + |r| <= |s| && r == s[i..i + |r|]
      && (forall k :: 0 <= k < i ==> IsWhitespace(s[k]))
      && (forall k :: i + |r| <= k < |s| ==> IsWhitespace(s[k]))
      && (r != [] ==> !IsWhitespace(r[0]) && !IsWhitespace(r[|r| - 1]))
  {
    var t := TrimStart(s);
    TrimStartMeaning(s);
    TrimEndMeaning(t);
    var r := TrimEnd(t);
    TakeOfDrop(s, i, |r|);
    forall k | i + |r| <= k < |s| ensures IsWhitespace(s[k]) {
      assert s[k] == t[k - i];
    }
    if r != [] {
      assert r[0] == t[0];
    }
  }

  /** A prefix of a suffix is a slice. */
  lemma TakeOfDrop<T>(s: seq<T>, i: int, n: int)
    requires 0 <= i && 0 <= n && i + n <= |s|
    ensures s[i..][..n] == s[i..i + n]
  {
  }

  /** A trimmed string is its own trim. */
  lemma TrimIdempotent(s: string)
    ensures Trim(Trim(s)) == Trim(s)
  {
    var r := Trim(s);
    TrimMeaning(s);
    assert TrimStart(r) == r;
    assert TrimEnd(r) == r;
  }

  /** `s.replace(/\r?\n/g, '')`: every line feed goes, together with a carriage return just before it. */
  function RemoveNewlines(s: string): (r: string)
    ensures '\n' !in r
    ensures |r| <= |s|
  {
    if s == [] then []
    else if s[0] == '\n' then RemoveNewlines(s[1..])
    else if |s| >= 2 && s[0] == '\r' && s[1] == '\n' then RemoveNewlines(s[2..])
    else [s[0]] + RemoveNewlines(s[1..])
  }

  /** A string without line feeds is left as it is. */
  lemma {:induction false} RemoveNewlinesNoop(s: string)
    requires '\n' !in s
    ensures RemoveNewlines(s) == s
  {
    if s != [] {
      assert '\n' !in s[1..] by { assert forall c :: c in s[1..] ==> c in s; }
      RemoveNewlinesNoop(s[1..]);
    }
  }

  function UpperChar(c: char): char {
    if 'a' <= c <= 'z' then (c as int - 32) as char else c
  }

  /** `s.toUpperCase()` on the ASCII letters (checksums are hexadecimal digits). */
  function AsciiUpper(s: string): (r: string)
    ensures |r| == |s|
    ensures forall k :: 0 <= k < |s| ==> r[k] == UpperChar(s[k])
  {
    seq(|s|, k requires 0 <= k < |s| => UpperChar(s[k]))
  }

  function LowerChar(c: char): char {
    if 'A' <= c <= 'Z' then (c as int + 32) as char else c
  }

  /** `s.toLowerCase()` on the ASCII letters. */
  function AsciiLower(s: string): (r: string)
    ensures |r| == |s|
    ensures forall k :: 0 <= k < |s| ==> r[k] == LowerChar(s[k])
  {
    seq(|s|, k requires 0 <= k < |s| => LowerChar(s[k]))
  }
}
