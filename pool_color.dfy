/**
 * mixColor: the goo colour of a pool, the channel-by-channel average of two "#rrggbb" colours,
 * halves rounded up as Math.round does.
 */
module PoolColor {
  import opened JsText
  import opened HexUtil

  /** "#" and six hex digits. */
  predicate IsHexColor(c: string) {
    |c| == 7 && c[0] == '#' && AllHex(c[1..])
  }

  /** String.prototype.replace with a one-character pattern: only the first occurrence goes. */
  function RemoveFirst(s: string, ch: char): (r: string)
    ensures |r| == if ch in s then |s| - 1 else |s|
    ensures ch !in s ==> r == s
    ensures s != [] && s[0] == ch ==> r == s[1..]
  {
    if s == [] then []
    else if s[0] == ch then s[1..]
    else
      assert ch in s <==> ch in s[1..] by { assert s == [s[0]] + s[1..]; }
      [s[0]] + RemoveFirst(s[1..], ch)
  }

  /** What goes is the first occurrence of ch, and nothing else. */
  lemma RemoveFirstDropsFirst(s: string, ch: char)
    ensures var k := IndexOf(s, ch); k < |s| ==> RemoveFirst(s, ch) == s[..k] + s[k + 1..]
  {
    var k := IndexOf(s, ch);
    if k < |s| {
      DropsAt(s, ch, k);
    }
  }

  /** If the first ch is at k, removing the first ch cuts out position k. */
  lemma {:induction false} DropsAt(s: string, ch: char, k: nat)
    requires k < |s| && s[k] == ch && forall i :: 0 <= i < k ==> s[i] != ch
    ensures RemoveFirst(s, ch) == s[..k] + s[k + 1..]
    decreases k
  {
    if k == 0 {
      assert s[..0] + s[1..] == s[1..];
    } else {
      assert forall i :: 0 <= i < k - 1 ==> s[1..][i] == s[i + 1];
      DropsAt(s[1..], ch, k - 1);
      DropsFirstStep(s, ch, k - 1);
    }
  }

  /** Keeping a first character that is not ch moves the dropped position one place on. */
  lemma DropsFirstStep(s: string, ch: char, k: nat)
    requires s != [] && s[0] != ch && k < |s| - 1
    requires RemoveFirst(s[1..], ch) == s[1..][..k] + s[1..][k + 1..]
    ensures RemoveFirst(s, ch) == s[..k + 1] + s[k + 2..]
  {
    var t := s[1..];
    assert RemoveFirst(s, ch) == [s[0]] + (t[..k] + t[k + 1..]);
    assert s[..k + 1] == [s[0]] + t[..k];
    assert s[k + 2..] == t[k + 1..];
  }

  /** The six hex digits of a colour: c.replace("#", "") with any "0x" stripped. */
  function Digits(c: string): string {
    Strip0x(RemoveFirst(c, '#'))
  }

  lemma DigitsOfHexColor(c: string)
    requires IsHexColor(c)
    ensures Digits(c) == c[1..]
  {
    assert RemoveFirst(c, '#') == c[1..];
    assert IsHexDigit(c[1..][1]);
    assert !StartsWith(c[1..], "0x");
  }

  /** The two digits of channel k (0 red, 1 green, 2 blue) of a six-digit string, as parseInt reads them. */
  function Channel(digits: string, k: nat): (v: nat)
    requires |digits| == 6 && AllHex(digits) && k < 3
    ensures v < 256
  {
    DigitValue(digits[2 * k]) * 16 + DigitValue(digits[2 * k + 1])
  }

  /** Channel is parseInt(digits.slice(2k, 2k + 2), 16). */
  lemma ChannelIsParseInt(digits: string, k: nat)
    requires |digits| == 6 && AllHex(digits) && k < 3
    ensures var pair := digits[2 * k..2 * k + 2];
      AllHex(pair) && Channel(digits, k) == ValueOf(pair, 16)
  {
    var pair := digits[2 * k..2 * k + 2];
    assert pair == [digits[2 * k], digits[2 * k + 1]];
    TwoDigitValue(pair);
  }

  lemma TwoDigitValue(pair: string)
    requires |pair| == 2 && AllHex(pair)
    ensures ValueOf(pair, 16) == DigitValue(pair[0]) * 16 + DigitValue(pair[1])
  {
    assert pair[..1] == [pair[0]] && [pair[0]][..0] == [];
    assert ValueOf(pair[..1], 16) == DigitValue(pair[0]);
  }

  /** Math.round((x + y) / 2) for non-negative integers: a half rounds up. */
  function RoundedMean(x: nat, y: nat): (m: nat)
    ensures 2 * m == x + y || 2 * m == x + y + 1
  {
    (x + y + 1) / 2
  }

  /** One channel as two lower-case hex digits. */
  function Hex2(n: nat): (r: string)
    requires n < 256
    ensures |r| == 2 && AllLowerHex(r) && AllHex(r)
    ensures DigitValue(r[0]) * 16 + DigitValue(r[1]) == n
  {
    [DigitChar(n / 16), DigitChar(n % 16)]
  }

  /** Hex2 is n.toString(16).padStart(2, "0"), and it denotes n. */
  lemma Hex2IsPaddedToString(n: nat)
    requires n < 256
    ensures Hex2(n) == PadStart(NatToString(n, 16), 2, '0')
    ensures ValueOf(Hex2(n), 16) == n
  {
    TwoDigitValue(Hex2(n));
    if n >= 16 {
      assert NatToString(n / 16, 16) == [DigitChar(n / 16)];
    }
  }

  /** The six mixed digits of two six-digit strings. */
  function MixDigits(a: string, b: string): (m: string)
    requires |a| == 6 && AllHex(a) && |b| == 6 && AllHex(b)
    ensures |m| == 6 && AllLowerHex(m) && AllHex(m)
  {
    var h0 := Hex2(RoundedMean(Channel(a, 0), Channel(b, 0)));
    var h1 := Hex2(RoundedMean(Channel(a, 1), Channel(b, 1)));
    var h2 := Hex2(RoundedMean(Channel(a, 2), Channel(b, 2)));
    LowerHexConcat(h0, h1);
    LowerHexConcat(h0 + h1, h2);
    h0 + h1 + h2
  }

  lemma LowerHexConcat(x: string, y: string)
    requires AllLowerHex(x) && AllLowerHex(y)
    ensures AllLowerHex(x + y) && AllHex(x + y)
  {
    assert forall i :: 0 <= i < |y| ==> (x + y)[|x| + i] == y[i];
  }

  function MixColor(c1: string, c2: string): (r: string)
    requires IsHexColor(c1) && IsHexColor(c2)
    ensures IsHexColor(r) && AllLowerHex(r[1..])
  {
    DigitsOfHexColor(c1);
    DigitsOfHexColor(c2);
    var m := MixDigits(Digits(c1), Digits(c2));
    assert ("#" + m)[1..] == m;
    "#" + m
  }

  lemma MixDigitsChannels(a: string, b: string, k: nat)
    requires |a| == 6 && AllHex(a) && |b| == 6 && AllHex(b) && k < 3
    ensures Channel(MixDigits(a, b), k) == RoundedMean(Channel(a, k), Channel(b, k))
  {
    var h0 := Hex2(RoundedMean(Channel(a, 0), Channel(b, 0)));
    var h1 := Hex2(RoundedMean(Channel(a, 1), Channel(b, 1)));
    var h2 := Hex2(RoundedMean(Channel(a, 2), Channel(b, 2)));
    var m := MixDigits(a, b);
    assert m == h0 + h1 + h2;
    if k == 0 {
      assert m[0..2] == h0;
      ChannelIs(m, 0, h0);
    } else if k == 1 {
      assert m[2..4] == h1;
      ChannelIs(m, 1, h1);
    } else {
      assert m[4..6] == h2;
      ChannelIs(m, 2, h2);
    }
  }

  lemma ChannelIs(digits: string, k: nat, pair: string)
    requires |digits| == 6 && AllHex(digits) && k < 3 && |pair| == 2 && AllHex(pair)
    requires digits[2 * k..2 * k + 2] == pair
    ensures Channel(digits, k) == DigitValue(pair[0]) * 16 + DigitValue(pair[1])
  {
    assert digits[2 * k] == pair[0] && digits[2 * k + 1] == pair[1];
  }

  lemma MixChannel(c1: string, c2: string, k: nat)
    requires IsHexColor(c1) && IsHexColor(c2) && k < 3
    ensures Channel(MixColor(c1, c2)[1..], k) == RoundedMean(Channel(c1[1..], k), Channel(c2[1..], k))
  {
    DigitsOfHexColor(c1);
    DigitsOfHexColor(c2);
    var m := MixDigits(c1[1..], c2[1..]);
    assert MixColor(c1, c2)[1..] == m;
    MixDigitsChannels(c1[1..], c2[1..], k);
  }

  /** The mix sits between its two colours in every channel, at their mean rounded half up. */
  lemma MixColorAverages(c1: string, c2: string, k: nat)
    requires IsHexColor(c1) && IsHexColor(c2) && k < 3
    ensures var m, x, y := Channel(MixColor(c1, c2)[1..], k), Channel(c1[1..], k), Channel(c2[1..], k);
      (2 * m == x + y || 2 * m == x + y + 1)
      && (x <= y ==> x <= m <= y) && (y <= x ==> y <= m <= x)
  {
    MixChannel(c1, c2, k);
  }

  /** Mixing is symmetric. */
  lemma MixColorCommutes(c1: string, c2: string)
    requires IsHexColor(c1) && IsHexColor(c2)
    ensures MixColor(c1, c2) == MixColor(c2, c1)
  {
    DigitsOfHexColor(c1);
    DigitsOfHexColor(c2);
    var a, b := c1[1..], c2[1..];
    assert MixDigits(a, b) == MixDigits(b, a) by {
      assert RoundedMean(Channel(a, 0), Channel(b, 0)) == RoundedMean(Channel(b, 0), Channel(a, 0));
      assert RoundedMean(Channel(a, 1), Channel(b, 1)) == RoundedMean(Channel(b, 1), Channel(a, 1));
      assert RoundedMean(Channel(a, 2), Channel(b, 2)) == RoundedMean(Channel(b, 2), Channel(a, 2));
    }
  }

  /** Printing a channel read from two digits gives those digits back, lower-cased. */
  lemma Hex2OfChannel(d: string, k: nat)
    requires |d| == 6 && AllHex(d) && k < 3
    ensures Hex2(Channel(d, k)) == [LowerChar(d[2 * k]), LowerChar(d[2 * k + 1])]
  {
    var x, hi, lo := Channel(d, k), DigitValue(d[2 * k]), DigitValue(d[2 * k + 1]);
    DivModUnique(x / 16, x % 16, hi, lo, 16);
    DigitCharOfValue(d[2 * k]);
    DigitCharOfValue(d[2 * k + 1]);
  }

  /** Mixing a colour with itself gives the same colour, written in lower case. */
  lemma MixColorSelf(c: string)
    requires IsHexColor(c)
    ensures MixColor(c, c) == "#" + ToLower(c[1..])
  {
    var d := c[1..];
    DigitsOfHexColor(c);
    SelfDigits(d);
    SelfDigitsLower(d);
    assert MixColor(c, c) == "#" + MixDigits(d, d);
  }

  /** Each channel of a colour mixed with itself is the channel. */
  lemma SelfDigits(d: string)
    requires |d| == 6 && AllHex(d)
    ensures MixDigits(d, d) == Hex2(Channel(d, 0)) + Hex2(Channel(d, 1)) + Hex2(Channel(d, 2))
  {
    SelfMean(Channel(d, 0));
    SelfMean(Channel(d, 1));
    SelfMean(Channel(d, 2));
  }

  /** Printing the three channels of six hex digits gives the digits back, lower-cased. */
  lemma SelfDigitsLower(d: string)
    requires |d| == 6 && AllHex(d)
    ensures Hex2(Channel(d, 0)) + Hex2(Channel(d, 1)) + Hex2(Channel(d, 2)) == ToLower(d)
  {
    Hex2OfChannel(d, 0);
    Hex2OfChannel(d, 1);
    Hex2OfChannel(d, 2);
    LowerBySix(d);
  }

  lemma SelfMean(x: nat)
    ensures RoundedMean(x, x) == x
  {
  }

  /** Lower-casing six characters, two at a time. */
  lemma LowerBySix(d: string)
    requires |d| == 6
    ensures ToLower(d) == [LowerChar(d[0]), LowerChar(d[1])] + [LowerChar(d[2]), LowerChar(d[3])]
      + [LowerChar(d[4]), LowerChar(d[5])]
  {
  }
}
