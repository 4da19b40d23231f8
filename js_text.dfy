/**
 * The JavaScript string and number primitives that app.js builds on:
 * String.prototype.trim, padStart, padEnd, includes, toLowerCase,
 * digit-string values (BigInt(s), parseInt(s, 16)) and toString(radix).
 */
module JsText {

  // ---------------------------------------------------------------- characters

  /** ECMAScript WhiteSpace and LineTerminator code points: what trim() removes. */
  predicate IsJsWhitespace(c: char) {
    c == '\t' || c == '\n' || c == '\U{B}' || c == '\U{C}' || c == '\r' || c == ' '
    || c == '\U{A0}' || c == '\U{1680}' || ('\U{2000}' <= c <= '\U{200A}')
    || c == '\U{2028}' || c == '\U{2029}' || c == '\U{202F}' || c == '\U{205F}'
    || c == '\U{3000}' || c == '\U{FEFF}'
  }

  /** A regular expression's `\d`: an ASCII decimal digit. */
  predicate IsDigit(c: char) { '0' <= c <= '9' }

  predicate IsLowerHexDigit(c: char) { IsDigit(c) || 'a' <= c <= 'f' }

  /** `[0-9a-fA-F]` */
  predicate IsHexDigit(c: char) { IsLowerHexDigit(c) || 'A' <= c <= 'F' }

  predicate AllDigits(s: string) { forall i :: 0 <= i < |s| ==> IsDigit(s[i]) }

  predicate AllHex(s: string) { forall i :: 0 <= i < |s| ==> IsHexDigit(s[i]) }

  predicate AllLowerHex(s: string) { forall i :: 0 <= i < |s| ==> IsLowerHexDigit(s[i]) }

  /** The value of one digit, in any radix up to 16, either case. */
  function DigitValue(c: char): (d: nat)
    requires IsHexDigit(c)
    ensures d < 16
    ensures IsDigit(c) <==> d < 10
    ensures d == 0 <==> c == '0'
  {
    if IsDigit(c) then c as int - '0' as int
    else if 'a' <= c <= 'f' then c as int - 'a' as int + 10
    else c as int - 'A' as int + 10
  }

  /** The lower-case digit that toString(radix) prints for d. */
  function DigitChar(d: nat): (c: char)
    requires d < 16
    ensures IsLowerHexDigit(c) && DigitValue(c) == d
  {
    if d < 10 then ('0' as int + d) as char else ('a' as int + d - 10) as char
  }

  /** toLowerCase on one character, for the ASCII letters (the only ones app.js lower-cases). */
  function LowerChar(c: char): char {
    if 'A' <= c <= 'Z' then (c as int - 'A' as int + 'a' as int) as char else c
  }

  lemma DigitCharOfValue(c: char)
    requires IsHexDigit(c)
    ensures DigitChar(DigitValue(c)) == LowerChar(c)
    ensures IsHexDigit(LowerChar(c)) && DigitValue(LowerChar(c)) == DigitValue(c)
  {
  }

  // ---------------------------------------------------------------- strings

  function ToLower(s: string): string {
    seq(|s|, i requires 0 <= i < |s| => LowerChar(s[i]))
  }

  function Repeat(c: char, n: nat): (r: string)
    ensures |r| == n && forall i :: 0 <= i < n ==> r[i] == c
  {
    seq(n, _ => c)
  }

  /** String.prototype.padStart(width, fill) with a one-character filler. */
  function PadStart(s: string, width: nat, fill: char): (r: string)
    ensures |r| == if |s| < width then width else |s|
    ensures r[|r| - |s|..] == s
    ensures forall i :: 0 <= i < |r| - |s| ==> r[i] == fill
  {
    if |s| < width then Repeat(fill, width - |s|) + s else s
  }

  /** String.prototype.padEnd(width, fill) with a one-character filler. */
  function PadEnd(s: string, width: nat, fill: char): (r: string)
    ensures |r| == if |s| < width then width else |s|
    ensures r[..|s|] == s
    ensures forall i :: |s| <= i < |r| ==> r[i] == fill
  {
    if |s| < width then s + Repeat(fill, width - |s|) else s
  }

  predicate StartsWith(s: string, p: string) {
    |p| <= |s| && s[..|p|] == p
  }

  /** The first position of c in s, or |s| when c does not occur (where indexOf gives -1). */
  function IndexOf(s: string, c: char): (k: nat)
    ensures k <= |s| && (k < |s| ==> s[k] == c) && (c in s <==> k < |s|)
    ensures forall i :: 0 <= i < k ==> s[i] != c
  {
    if s == [] || s[0] == c then 0 else 1 + IndexOf(s[1..], c)
  }

  /** String.prototype.includes: p occurs somewhere in s. */
  predicate Includes(s: string, p: string)
    decreases |s|
  {
    StartsWith(s, p) || (s != [] && Includes(s[1..], p))
  }

  lemma {:induction false} IncludesInSuffix(s: string, k: nat, p: string)
    requires k <= |s| && Includes(s[k..], p)
    ensures Includes(s, p)
    decreases k
  {
    if k > 0 {
      assert s[1..][k - 1..] == s[k..];
      IncludesInSuffix(s[1..], k - 1, p);
    }
  }

  /** An occurrence of q + p contains an occurrence of p. */
  lemma {:induction false} IncludesTail(s: string, q: string, p: string)
    requires Includes(s, q + p)
    ensures Includes(s, p)
    decreases |s|
  {
    if StartsWith(s, q + p) {
      assert s[|q|..][..|p|] == (q + p)[|q|..];
      assert StartsWith(s[|q|..], p);
      IncludesInSuffix(s, |q|, p);
    } else {
      IncludesTail(s[1..], q, p);
    }
  }

  /** p cannot occur in a string that lacks p's first character. */
  lemma {:induction false} NotIncludedWithoutFirstChar(s: string, p: string)
    requires p != [] && forall i :: 0 <= i < |s| ==> s[i] != p[0]
    ensures !Includes(s, p)
    decreases |s|
  {
    if s != [] {
      if |p| <= |s| {
        assert s[..|p|][0] == s[0];
      }
      NotIncludedWithoutFirstChar(s[1..], p);
    } else {
      assert !StartsWith(s, p);
    }
  }

  /** trimStart: what goes is white space only, and the rest is kept in place. */
  function TrimStart(s: string): (r: string)
    ensures |r| <= |s| && r == s[|s| - |r|..]
    ensures forall i :: 0 <= i < |s| - |r| ==> IsJsWhitespace(s[i])
    ensures r != [] ==> !IsJsWhitespace(r[0])
  {
    if s != [] && IsJsWhitespace(s[0]) then
      var r := TrimStart(s[1..]);
      assert s[|s| - |r|..] == s[1..][|s| - 1 - |r|..];
      assert forall i :: 1 <= i < |s| - |r| ==> s[i] == s[1..][i - 1];
      r
    else s
  }

  /** trimEnd: what goes is white space only, and the rest is kept in place. */
  function TrimEnd(s: string): (r: string)
    ensures |r| <= |s| && r == s[..|r|]
    ensures forall i :: |r| <= i < |s| ==> IsJsWhitespace(s[i])
    ensures r != [] ==> !IsJsWhitespace(r[|r| - 1])
  {
    if s != [] && IsJsWhitespace(s[|s| - 1]) then TrimEnd(s[..|s| - 1]) else s
  }

  /** String.prototype.trim: the longest infix with no white space at either end. */
  function Trim(s: string): (r: string)
    ensures r != [] ==> !IsJsWhitespace(r[0]) && !IsJsWhitespace(r[|r| - 1])
  {
    TrimEnd(TrimStart(s))
  }

  /** A string that neither starts nor ends with white space is its own trim. */
  lemma TrimOfTrimmed(s: string)
    requires s != [] ==> !IsJsWhitespace(s[0]) && !IsJsWhitespace(s[|s| - 1])
    ensures Trim(s) == s
  {
  }

  lemma TrimIdempotent(s: string)
    ensures Trim(Trim(s)) == Trim(s)
  {
    TrimOfTrimmed(Trim(s));
  }

  // ---------------------------------------------------------------- numbers

  function Pow(b: nat, k: nat): (r: nat)
    ensures b >= 1 ==> r >= 1
  {
    if k == 0 then 1 else b * Pow(b, k - 1)
  }

  /** Every character of s is a digit of the given radix. */
  predicate DigitsBelow(s: string, base: nat) {
    forall i :: 0 <= i < |s| ==> IsHexDigit(s[i]) && DigitValue(s[i]) < base
  }

  /** The number a digit string denotes in a radix: BigInt(s) for radix 10, parseInt(s, 16) for 16. */
  function ValueOf(s: string, base: nat): nat
    requires AllHex(s)
  {
    if s == [] then 0 else ValueOf(s[..|s| - 1], base) * base + DigitValue(s[|s| - 1])
  }

  /** Number.prototype.toString(radix) / BigInt.prototype.toString(radix) of a non-negative integer. */
  function NatToString(n: nat, base: nat): (r: string)
    requires 2 <= base <= 16
    ensures r != [] && AllLowerHex(r) && AllHex(r)
    decreases n
  {
    if n < base then [DigitChar(n)]
    else
      DivMod(n, base);
      var front, last := NatToString(n / base, base), DigitChar(n % base);
      AppendLowerHex(front, last);
      front + [last]
  }

  lemma AppendLowerHex(s: string, c: char)
    requires AllLowerHex(s) && IsLowerHexDigit(c)
    ensures AllLowerHex(s + [c]) && AllHex(s + [c])
  {
    assert forall i :: 0 <= i < |s| ==> (s + [c])[i] == s[i];
  }

  // Small facts of non-linear arithmetic, kept apart so the solver sees them in isolation.

  lemma MulRegroup(x: nat, p: nat, y: nat, b: nat, d: nat)
    ensures (x * p + y) * b + d == x * (b * p) + (y * b + d)
  {
  }

  lemma MulBelow(v: nat, p: nat, b: nat, d: nat)
    requires v < p && d < b
    ensures v * b + d < b * p
  {
    assert v * b <= (p - 1) * b;
  }

  lemma DivMod(n: nat, b: nat)
    requires b >= 1
    ensures n == (n / b) * b + n % b && n % b < b
    ensures n >= b ==> n / b >= 1
    ensures n >= 1 && b >= 2 ==> n / b < n
  {
  }

  lemma DivBelow(n: nat, b: nat, p: nat)
    requires b >= 1 && n < b * p
    ensures n / b < p
  {
    DivMod(n, b);
  }

  lemma {:induction false} ValueOfAppend(a: string, b: string, base: nat)
    requires AllHex(a) && AllHex(b)
    ensures AllHex(a + b)
    ensures ValueOf(a + b, base) == ValueOf(a, base) * Pow(base, |b|) + ValueOf(b, base)
    decreases |b|
  {
    if b == [] {
      assert a + b == a;
    } else {
      var b' := b[..|b| - 1];
      var d := DigitValue(b[|b| - 1]);
      assert (a + b)[..|a + b| - 1] == a + b';
      ValueOfAppend(a, b', base);
      MulRegroup(ValueOf(a, base), Pow(base, |b'|), ValueOf(b', base), base, d);
    }
  }

  lemma {:induction false} ValueOfZeros(n: nat, base: nat)
    ensures AllHex(Repeat('0', n)) && ValueOf(Repeat('0', n), base) == 0
  {
    if n > 0 {
      assert Repeat('0', n)[..n - 1] == Repeat('0', n - 1);
      ValueOfZeros(n - 1, base);
    }
  }

  /** Leading zeros do not change a digit string's value. */
  lemma LeadingZerosValue(k: nat, s: string, base: nat)
    requires AllHex(s)
    ensures AllHex(Repeat('0', k) + s)
    ensures ValueOf(Repeat('0', k) + s, base) == ValueOf(s, base)
  {
    ValueOfZeros(k, base);
    ValueOfAppend(Repeat('0', k), s, base);
  }

  /** padStart with '0' keeps the value of a digit string. */
  lemma PadStartValue(s: string, width: nat, base: nat)
    requires AllHex(s)
    ensures AllHex(PadStart(s, width, '0'))
    ensures ValueOf(PadStart(s, width, '0'), base) == ValueOf(s, base)
  {
    if |s| < width {
      LeadingZerosValue(width - |s|, s, base);
    }
  }

  /** A digit string is worth zero exactly when all its digits are '0'. */
  lemma {:induction false} ValueZeroIffAllZeros(s: string, base: nat)
    requires AllHex(s) && base >= 1
    ensures ValueOf(s, base) == 0 <==> forall i :: 0 <= i < |s| ==> s[i] == '0'
    decreases |s|
  {
    if s != [] {
      var s' := s[..|s| - 1];
      ValueZeroIffAllZeros(s', base);
      if ValueOf(s', base) != 0 {
        assert ValueOf(s', base) * base >= 1;
        assert exists i :: 0 <= i < |s'| && s'[i] != '0';
        var i :| 0 <= i < |s'| && s'[i] != '0';
        assert s[i] != '0';
      }
    }
  }

  /** n digits of radix base denote less than base^n. */
  lemma {:induction false} ValueBound(s: string, base: nat)
    requires AllHex(s) && DigitsBelow(s, base)
    ensures ValueOf(s, base) < Pow(base, |s|)
    decreases |s|
  {
    if s != [] {
      var s' := s[..|s| - 1];
      assert DigitsBelow(s', base);
      ValueBound(s', base);
      MulBelow(ValueOf(s', base), Pow(base, |s'|), base, DigitValue(s[|s| - 1]));
    }
  }

  /** toString(radix) followed by reading the digits back gives the number again, with no leading zero. */
  lemma {:induction false} NatToStringValue(n: nat, base: nat)
    requires 2 <= base <= 16
    ensures DigitsBelow(NatToString(n, base), base)
    ensures ValueOf(NatToString(n, base), base) == n
    ensures |NatToString(n, base)| == 1 || NatToString(n, base)[0] != '0'
    decreases n
  {
    var r := NatToString(n, base);
    if n < base {
      assert r == [DigitChar(n)];
      assert r[..0] == [];
      assert ValueOf(r, base) == 0 * base + n;
    } else {
      var q, d := n / base, n % base;
      DivMod(n, base);
      NatToStringValue(q, base);
      assert r == NatToString(q, base) + [DigitChar(d)];
      NatToStringStep(NatToString(q, base), q, d, base);
    }
  }

  lemma NatToStringStep(r': string, q: nat, d: nat, base: nat)
    requires 2 <= base <= 16 && d < base && q >= 1
    requires AllHex(r') && DigitsBelow(r', base) && ValueOf(r', base) == q
    requires |r'| == 1 || r'[0] != '0'
    ensures var r := r' + [DigitChar(d)];
      DigitsBelow(r, base) && ValueOf(r, base) == q * base + d && r[0] != '0'
  {
    var r := r' + [DigitChar(d)];
    assert r[..|r| - 1] == r';
    assert r[0] == r'[0];
    if |r'| == 1 { assert DigitValue(r'[0]) == q; }
  }

  /** Below base^k, toString(radix) prints at most k digits. */
  lemma {:induction false} NatToStringLength(n: nat, base: nat, k: nat)
    requires 2 <= base <= 16 && k >= 1 && n < Pow(base, k)
    ensures |NatToString(n, base)| <= k
    decreases k
  {
    if n >= base {
      assert k >= 2;
      DivBelow(n, base, Pow(base, k - 1));
      NatToStringLength(n / base, base, k - 1);
    }
  }

  /** Lower-casing hex digits keeps their value. */
  lemma {:induction false} ValueOfLower(s: string, base: nat)
    requires AllHex(s)
    ensures AllHex(ToLower(s)) && ValueOf(ToLower(s), base) == ValueOf(s, base)
    decreases |s|
  {
    forall i | 0 <= i < |s| ensures IsHexDigit(ToLower(s)[i]) {
      DigitCharOfValue(s[i]);
    }
    if s != [] {
      var s' := s[..|s| - 1];
      assert ToLower(s)[..|s| - 1] == ToLower(s');
      ValueOfLower(s', base);
      DigitCharOfValue(s[|s| - 1]);
    }
  }

  /** Lower-case text is left as it is by toLowerCase. */
  lemma ToLowerOfLowerHex(s: string)
    requires AllLowerHex(s)
    ensures ToLower(s) == s
  {
  }

  /** A lower-case hex digit is the one toString(radix) prints for its value. */
  lemma LowerDigitIsDigitChar(c: char)
    requires IsLowerHexDigit(c)
    ensures DigitChar(DigitValue(c)) == c
  {
    DigitCharOfValue(c);
  }

  lemma Distribute(x: nat, k: nat, b: nat)
    ensures (x + k) * b == x * b + k * b
  {
  }

  lemma MulMonotone(x: nat, y: nat, b: nat)
    requires x < y
    ensures x * b + b <= y * b
  {
    var k := y - x;
    Distribute(x, k, b);
    Distribute(1, k - 1, b);
  }

  /** Quotient and remainder are unique. */
  lemma DivModUnique(x: nat, d: nat, y: nat, e: nat, b: nat)
    requires d < b && e < b && x * b + d == y * b + e
    ensures x == y && d == e
  {
    if x < y { MulMonotone(x, y, b); }
    else if y < x { MulMonotone(y, x, b); }
  }

  /** Two lower-case digit strings of one length and one value are the same string. */
  lemma {:induction false} LowerHexUnique(a: string, b: string, base: nat)
    requires AllLowerHex(a) && AllLowerHex(b) && |a| == |b|
    requires DigitsBelow(a, base) && DigitsBelow(b, base)
    requires ValueOf(a, base) == ValueOf(b, base)
    ensures a == b
    decreases |a|
  {
    if a != [] {
      var a', b' := a[..|a| - 1], b[..|b| - 1];
      var ca, cb := a[|a| - 1], b[|b| - 1];
      DivModUnique(ValueOf(a', base), DigitValue(ca), ValueOf(b', base), DigitValue(cb), base);
      assert DigitsBelow(a', base) && DigitsBelow(b', base);
      LowerHexUnique(a', b', base);
      LowerDigitIsDigitChar(ca);
      LowerDigitIsDigitChar(cb);
      assert a == a' + [ca] && b == b' + [cb];
    }
  }

  lemma MulGrows(b: nat, p: nat)
    requires b >= 1
    ensures p <= b * p
  {
    assert b * p == p + (b - 1) * p;
  }

  lemma {:induction false} PowMonotone(b: nat, j: nat, k: nat)
    requires b >= 1 && j <= k
    ensures Pow(b, j) <= Pow(b, k)
    decreases k
  {
    if j < k {
      PowMonotone(b, j, k - 1);
      var p := Pow(b, k - 1);
      assert Pow(b, k) == b * p;
      MulGrows(b, p);
    }
  }

  /** From base^k upwards, toString(radix) prints more than k digits. */
  lemma NatToStringLongAbove(n: nat, base: nat, k: nat)
    requires 2 <= base <= 16 && n >= Pow(base, k)
    ensures |NatToString(n, base)| > k
  {
    var r := NatToString(n, base);
    NatToStringValue(n, base);
    ValueBound(r, base);
    if |r| <= k { PowMonotone(base, |r|, k); }
  }
}
