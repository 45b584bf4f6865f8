/**
  The integer part of `Color(hex:)`: trim the characters that are not
  letters or digits from both ends, scan a hexadecimal number, and cut it into
  alpha, red, green and blue channels according to the trimmed length.

  The scanned value is non-negative, so `x >> k` is `x / 2^k` and `x & m` for
  `m = 2^j - 1` is `x % 2^j`.
 */
module HexColor {
  import opened Text

  predicate IsHexDigit(c: char) {
    ('0' <= c <= '9') || ('a' <= c <= 'f') || ('A' <= c <= 'F')
  }

  predicate AllHex(s: String) {
    forall k :: 0 <= k < |s| ==> IsHexDigit(s[k])
  }

  function DigitValue(c: char): (v: nat)
    requires IsHexDigit(c)
    ensures v < 16
  {
    if '0' <= c <= '9' then c as int - '0' as int
    else if 'a' <= c <= 'f' then c as int - 'a' as int + 10
    else c as int - 'A' as int + 10
  }

  /** The lower-case digit for a value below 16. */
  function Digit(d: nat): (c: char)
    requires d < 16
    ensures IsHexDigit(c) && DigitValue(c) == d
  {
    if d < 10 then ('0' as int + d) as char else ('a' as int + d - 10) as char
  }

  function Pow16(n: nat): (p: nat)
    ensures p >= 1
  {
    if n == 0 then 1 else 16 * Pow16(n - 1)
  }

  /** The number the digits spell, most significant first. */
  function HexValue(s: String): (v: nat)
    requires AllHex(s)
    ensures v < Pow16(|s|)
  {
    if |s| == 0 then 0
    else
      var v0 := HexValue(s[..|s| - 1]);
      var d := DigitValue(s[|s| - 1]);
      assert v0 * 16 + d < (v0 + 1) * 16 <= Pow16(|s| - 1) * 16;
      v0 * 16 + d
  }

  /** The end of the run of hex digits that starts at `i`. */
  function HexRunEnd(s: String, i: nat): (e: nat)
    requires i <= |s|
    ensures i <= e <= |s| && AllHex(s[i..e])
    ensures e < |s| ==> !IsHexDigit(s[e])
    decreases |s| - i
  {
    if i < |s| && IsHexDigit(s[i]) then
      var e := HexRunEnd(s, i + 1);
      assert forall k :: 0 <= k < e - i ==> s[i..e][k] == s[i + k];
      e
    else i
  }

  /** Where the digits start: after a "0x" or "0X" that a hex digit follows. */
  function HexStart(s: String): nat {
    if |s| >= 3 && s[0] == '0' && (s[1] == 'x' || s[1] == 'X') && IsHexDigit(s[2]) then 2 else 0
  }

  lemma Pow16Monotone(m: nat, n: nat)
    requires m <= n
    ensures Pow16(m) <= Pow16(n)
    decreases n
  {
    if m < n {
      Pow16Monotone(m, n - 1);
    }
  }

  /** `Scanner.scanHexInt64`: the longest run of hex digits at the start, after
      an optional prefix; 0 when there is none. The value has no more digits
      than the string has characters. */
  function ScanHex(s: String): (v: nat)
    ensures v < Pow16(|s|)
  {
    var i := HexStart(s);
    var e := HexRunEnd(s, i);
    Pow16Monotone(e - i, |s|);
    HexValue(s[i..e])
  }

  /** `trimmingCharacters(in: CharacterSet.alphanumerics.inverted)`. */
  function TrimNonAlphanumerics(s: String): String {
    TrimBy(s, c => !IsAlphanumeric(c))
  }

  /** The four channels, each meant to be in 0...255. */
  datatype Argb = Argb(a: nat, r: nat, g: nat, b: nat)

  predicate Bounded(c: Argb) {
    c.a <= 255 && c.r <= 255 && c.g <= 255 && c.b <= 255
  }

  /** The `switch hex.count` over the scanned value `v`. */
  function Channels(count: nat, v: nat): Argb {
    if count == 3 then Argb(255, (v / 256) * 17, ((v / 16) % 16) * 17, (v % 16) * 17)
    else if count == 6 then Argb(255, v / 65536, (v / 256) % 256, v % 256)
    else if count == 8 then Argb(v / 16777216, (v / 65536) % 256, (v / 256) % 256, v % 256)
    else Argb(1, 1, 1, 0)
  }

  /** `Color(hex:)` before the division by 255. Every channel is at most 255,
      whatever the input; a trimmed length other than 3, 6 or 8 gives
      (1, 1, 1, 0). */
  function ParseHex(hex: String): (c: Argb)
    ensures Bounded(c)
    ensures var n := |TrimNonAlphanumerics(hex)|; n != 3 && n != 6 && n != 8 ==> c == Argb(1, 1, 1, 0)
  {
    var h := TrimNonAlphanumerics(hex);
    var v := ScanHex(h);
    ChannelsBounded(|h|, v);
    Channels(|h|, v)
  }

  /** A value with no more digits than the count yields channels in 0...255. */
  lemma ChannelsBounded(count: nat, v: nat)
    requires v < Pow16(count)
    ensures Bounded(Channels(count, v))
  {
    if count == 3 {
      assert Pow16(3) == 4096;
      assert v / 256 < 16 && (v / 16) % 16 < 16 && v % 16 < 16;
    } else if count == 6 {
      assert Pow16(6) == 16777216;
      assert v / 65536 < 256;
    } else if count == 8 {
      assert Pow16(8) == 4294967296;
      assert v / 16777216 < 256;
    }
  }

  /** Trimming drops a frame of characters that are neither letters nor digits
      around a string of hex digits. */
  lemma TrimFrame(pre: String, s: String, post: String)
    requires |s| > 0 && AllHex(s)
    requires forall k :: 0 <= k < |pre| ==> !IsAlphanumeric(pre[k])
    requires forall k :: 0 <= k < |post| ==> !IsAlphanumeric(post[k])
    ensures TrimNonAlphanumerics(pre + s + post) == s
  {
    var t := pre + s + post;
    assert t[|pre|..|pre| + |s|] == s;
    assert forall k :: 0 <= k < |pre| ==> t[k] == pre[k];
    assert forall k :: |pre| + |s| <= k < |t| ==> t[k] == post[k - |pre| - |s|];
    TrimByFramed(t, c => !IsAlphanumeric(c), |pre|, |pre| + |s|);
  }

  /** A string of hex digits that does not start with "0x" scans as its value. */
  lemma ScanAllHex(s: String)
    requires |s| > 0 && AllHex(s)
    ensures ScanHex(s) == HexValue(s)
  {
    assert HexStart(s) == 0;
    assert HexRunEnd(s, 0) == |s|;
    assert s[0..|s|] == s;
  }

  /** A string of hex digits, framed by characters that are neither letters nor
      digits, parses as the digits alone. */
  lemma ParseFramed(pre: String, s: String, post: String)
    requires |s| > 0 && AllHex(s)
    requires forall k :: 0 <= k < |pre| ==> !IsAlphanumeric(pre[k])
    requires forall k :: 0 <= k < |post| ==> !IsAlphanumeric(post[k])
    ensures ParseHex(pre + s + post) == Channels(|s|, HexValue(s))
  {
    TrimFrame(pre, s, post);
    ScanAllHex(s);
  }

  /** Two digits for a byte. */
  function Hex2(n: nat): (s: String)
    requires n < 256
    ensures |s| == 2 && AllHex(s)
  {
    [Digit(n / 16), Digit(n % 16)]
  }

  /** One more digit shifts the number by one place. */
  lemma HexValueSnoc(a: String, c: char)
    requires AllHex(a) && IsHexDigit(c)
    ensures AllHex(a + [c]) && HexValue(a + [c]) == HexValue(a) * 16 + DigitValue(c)
  {
    assert (a + [c])[..|a|] == a;
  }

  lemma Hex2Value(n: nat)
    requires n < 256
    ensures HexValue(Hex2(n)) == n
  {
    HexValueSnoc([], Digit(n / 16));
    HexValueSnoc([Digit(n / 16)], Digit(n % 16));
    assert [] + [Digit(n / 16)] == [Digit(n / 16)];
  }

  /** Two more digits shift the number by a byte. */
  lemma HexValueAppendByte(a: String, n: nat)
    requires AllHex(a) && n < 256
    ensures AllHex(a + Hex2(n)) && HexValue(a + Hex2(n)) == HexValue(a) * 256 + n
  {
    var h := Hex2(n);
    HexValueSnoc(a, h[0]);
    HexValueSnoc(a + [h[0]], h[1]);
    assert a + [h[0]] + [h[1]] == a + h;
    Hex2Value(n);
    HexValueSnoc([], h[0]);
    HexValueSnoc([h[0]], h[1]);
    assert [] + [h[0]] == [h[0]] && [h[0]] + [h[1]] == h;
  }

  /** Cutting a six-digit value into bytes recovers the bytes. */
  lemma RgbChannels(r: nat, g: nat, b: nat)
    requires r < 256 && g < 256 && b < 256
    ensures Channels(6, r * 65536 + g * 256 + b) == Argb(255, r, g, b)
  {
    var v := r * 65536 + g * 256 + b;
    assert v / 65536 == r;
    assert v / 256 == r * 256 + g;
    assert (r * 256 + g) % 256 == g;
    assert v % 256 == b;
  }

  /** Cutting an eight-digit value into bytes recovers the bytes. */
  lemma ArgbChannels(a: nat, r: nat, g: nat, b: nat)
    requires a < 256 && r < 256 && g < 256 && b < 256
    ensures Channels(8, a * 16777216 + r * 65536 + g * 256 + b) == Argb(a, r, g, b)
  {
    var v := a * 16777216 + r * 65536 + g * 256 + b;
    assert v / 16777216 == a;
    assert v / 65536 == a * 256 + r;
    assert (a * 256 + r) % 256 == r;
    assert v / 256 == a * 65536 + r * 256 + g;
    assert (a * 65536 + r * 256 + g) % 256 == g;
    assert v % 256 == b;
  }

  /** Cutting a three-digit value into nibbles and doubling them. */
  lemma ShortChannels(x: nat, y: nat, z: nat)
    requires x < 16 && y < 16 && z < 16
    ensures Channels(3, x * 256 + y * 16 + z) == Argb(255, x * 17, y * 17, z * 17)
  {
    var v := x * 256 + y * 16 + z;
    assert v / 256 == x;
    assert v / 16 == x * 16 + y;
    assert (x * 16 + y) % 16 == y;
    assert v % 16 == z;
  }

  lemma HashNotAlphanumeric()
    ensures forall k :: 0 <= k < |"#"| ==> !IsAlphanumeric("#"[k])
  {
    assert "#"[0] == '#';
  }

  /** A string of hex digits after a '#' parses as the digits alone. */
  lemma ParseHashed(s: String)
    requires |s| > 0 && AllHex(s)
    ensures ParseHex("#" + s) == Channels(|s|, HexValue(s))
  {
    assert "#" + s + [] == "#" + s;
    HashNotAlphanumeric();
    ParseFramed("#", s, []);
  }

  /** A string of hex digits after a '#' parses as the channels of its value. */
  lemma ParseHashedAs(s: String, v: nat, c: Argb)
    requires |s| > 0 && AllHex(s) && HexValue(s) == v && Channels(|s|, v) == c
    ensures ParseHex("#" + s) == c
  {
    ParseHashed(s);
  }

  /** The value of six digits spelling three bytes. */
  lemma RgbValue(r: nat, g: nat, b: nat)
    requires r < 256 && g < 256 && b < 256
    ensures var s := Hex2(r) + Hex2(g) + Hex2(b);
      AllHex(s) && HexValue(s) == r * 65536 + g * 256 + b
  {
    Hex2Value(r);
    HexValueAppendByte(Hex2(r), g);
    HexValueAppendByte(Hex2(r) + Hex2(g), b);
  }

  /** The six digits of three bytes parse back to those bytes, with alpha 255. */
  lemma RgbRoundTrip(r: nat, g: nat, b: nat)
    requires r < 256 && g < 256 && b < 256
    ensures ParseHex("#" + Hex2(r) + Hex2(g) + Hex2(b)) == Argb(255, r, g, b)
  {
    var s := Hex2(r) + Hex2(g) + Hex2(b);
    RgbValue(r, g, b);
    RgbChannels(r, g, b);
    ParseHashedAs(s, r * 65536 + g * 256 + b, Argb(255, r, g, b));
    Assoc3("#", Hex2(r), Hex2(g), Hex2(b));
  }

  lemma Assoc3(h: String, x: String, y: String, z: String)
    ensures h + (x + y + z) == h + x + y + z
  {
  }

  lemma Assoc4(h: String, w: String, x: String, y: String, z: String)
    ensures h + (w + x + y + z) == h + w + x + y + z
  {
  }

  /** The value of eight digits spelling four bytes. */
  lemma ArgbValue(a: nat, r: nat, g: nat, b: nat)
    requires a < 256 && r < 256 && g < 256 && b < 256
    ensures var s := Hex2(a) + Hex2(r) + Hex2(g) + Hex2(b);
      AllHex(s) && HexValue(s) == a * 16777216 + r * 65536 + g * 256 + b
  {
    var ar := Hex2(a) + Hex2(r);
    var arg := ar + Hex2(g);
    assert AllHex(ar) && HexValue(ar) == a * 256 + r by {
      Hex2Value(a);
      HexValueAppendByte(Hex2(a), r);
    }
    assert AllHex(arg) && HexValue(arg) == a * 65536 + r * 256 + g by {
      HexValueAppendByte(ar, g);
    }
    HexValueAppendByte(arg, b);
  }

  /** The eight digits of four bytes parse back to alpha, red, green and blue. */
  lemma ArgbRoundTrip(a: nat, r: nat, g: nat, b: nat)
    requires a < 256 && r < 256 && g < 256 && b < 256
    ensures ParseHex("#" + Hex2(a) + Hex2(r) + Hex2(g) + Hex2(b)) == Argb(a, r, g, b)
  {
    var s := Hex2(a) + Hex2(r) + Hex2(g) + Hex2(b);
    ArgbValue(a, r, g, b);
    ArgbChannels(a, r, g, b);
    ParseHashedAs(s, a * 16777216 + r * 65536 + g * 256 + b, Argb(a, r, g, b));
    Assoc4("#", Hex2(a), Hex2(r), Hex2(g), Hex2(b));
  }

  /** Three digits are doubled: each nibble `x` becomes the channel `x * 17`. */
  lemma ShortRoundTrip(x: nat, y: nat, z: nat)
    requires x < 16 && y < 16 && z < 16
    ensures ParseHex("#" + [Digit(x), Digit(y), Digit(z)]) == Argb(255, x * 17, y * 17, z * 17)
  {
    var s := [Digit(x), Digit(y), Digit(z)];
    assert HexValue(s) == x * 256 + y * 16 + z by {
      HexValueSnoc([], Digit(x));
      HexValueSnoc([Digit(x)], Digit(y));
      HexValueSnoc([Digit(x), Digit(y)], Digit(z));
      assert [] + [Digit(x)] == [Digit(x)] && [Digit(x)] + [Digit(y)] == [Digit(x), Digit(y)];
      assert [Digit(x), Digit(y)] + [Digit(z)] == s;
    }
    ShortChannels(x, y, z);
    ParseHashedAs(s, x * 256 + y * 16 + z, Argb(255, x * 17, y * 17, z * 17));
  }

  /** The two digits of a byte, spelled out. */
  lemma Hex2Is(n: nat, hi: char, lo: char)
    requires n < 256 && IsHexDigit(hi) && IsHexDigit(lo)
    requires Digit(n / 16) == hi && Digit(n % 16) == lo
    ensures Hex2(n) == [hi, lo]
  {
  }

  /** `Color.neoBackground`. */
  lemma NeoBackground(s: String)
    requires s == "#3e4464"
    ensures ParseHex(s) == Argb(255, 62, 68, 100)
  {
    assert "#" + Hex2(62) + Hex2(68) + Hex2(100) == s by {
      Hex2Is(62, '3', 'e');
      Hex2Is(68, '4', '4');
      Hex2Is(100, '6', '4');
    }
    RgbRoundTrip(62, 68, 100);
  }

  /** `Color.neoYellow`. */
  lemma NeoYellow(s: String)
    requires s == "#fcc418"
    ensures ParseHex(s) == Argb(255, 252, 196, 24)
  {
    assert "#" + Hex2(252) + Hex2(196) + Hex2(24) == s by {
      Hex2Is(252, 'f', 'c');
      Hex2Is(196, 'c', '4');
      Hex2Is(24, '1', '8');
    }
    RgbRoundTrip(252, 196, 24);
  }

  /** `Color.neoGreen`. */
  lemma NeoGreen(s: String)
    requires s == "#3cc45b"
    ensures ParseHex(s) == Argb(255, 60, 196, 91)
  {
    assert "#" + Hex2(60) + Hex2(196) + Hex2(91) == s by {
      Hex2Is(60, '3', 'c');
      Hex2Is(196, 'c', '4');
      Hex2Is(91, '5', 'b');
    }
    RgbRoundTrip(60, 196, 91);
  }
}
