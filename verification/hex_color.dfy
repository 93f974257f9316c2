/**
 `hexToRgb`, which turns the background colour picker's value into the three
 clear-colour components: remove the first `#`, read the rest as a base-16
 integer with `parseInt`, then take bits 16–23, 8–15 and 0–7 with `>>` and
 `& 255` and divide each byte by 255. JavaScript's bit operators first convert
 their operand with ToInt32 (wrap to a signed 32-bit integer); that step is
 written out here, as is `parseInt`'s NaN for an empty digit string.
 */
module HexColor {

  /** The three components handed to `gl.clearColor`. */
  datatype Rgb = Rgb(r: real, g: real, b: real)

  predicate IsHexDigit(c: char) {
    '0' <= c <= '9' || 'a' <= c <= 'f' || 'A' <= c <= 'F'
  }

  predicate AllHex(s: string) {
    forall i :: 0 <= i < |s| ==> IsHexDigit(s[i])
  }

  /** The value of one hexadecimal digit, either case. */
  function DigitValue(c: char): (v: nat)
    requires IsHexDigit(c)
    ensures v < 16
  {
    if '0' <= c <= '9' then c as int - '0' as int
    else if 'a' <= c <= 'f' then c as int - 'a' as int + 10
    else c as int - 'A' as int + 10
  }

  function Pow16(n: nat): (p: nat)
    ensures p >= 1
  {
    if n == 0 then 1 else 16 * Pow16(n - 1)
  }

  /** `parseInt(s, 16)` on a string of hex digits: most significant digit first. */
  function ParseHex(s: string): (v: nat)
    requires AllHex(s)
  {
    if |s| == 0 then 0
    else ParseHex(s[..|s| - 1]) * 16 + DigitValue(s[|s| - 1])
  }

  /** A string of `n` hex digits reads as a value below `16^n`. */
  lemma {:induction false} ParseHexBelow(s: string)
    requires AllHex(s)
    ensures ParseHex(s) < Pow16(|s|)
  {
    if |s| > 0 {
      var init := s[..|s| - 1];
      assert AllHex(init) by {
        forall i | 0 <= i < |init|
          ensures IsHexDigit(init[i])
        {
          assert init[i] == s[i];
        }
      }
      ParseHexBelow(init);
      assert ParseHex(s) == ParseHex(init) * 16 + DigitValue(s[|s| - 1]);
      assert Pow16(|s|) == 16 * Pow16(|init|);
    }
  }

  /**
   `hex.replace('#', '')`: with a string pattern, `replace` removes only the
   first occurrence, wherever it is; a string without `#` is returned as is.
   */
  function StripFirstHash(s: string): string {
    if |s| == 0 then s
    else if s[0] == '#' then s[1..]
    else [s[0]] + StripFirstHash(s[1..])
  }

  /** A string without `#` is left as it is. */
  lemma {:induction false} StripFirstHashWithoutHash(s: string)
    requires forall j :: 0 <= j < |s| ==> s[j] != '#'
    ensures StripFirstHash(s) == s
  {
    if |s| > 0 {
      StripFirstHashWithoutHash(s[1..]);
    }
  }

  /** Otherwise exactly the first `#` is removed: the one at `i`, when nothing before `i` is a `#`. */
  lemma {:induction false} StripFirstHashRemovesFirst(s: string, i: nat)
    requires i < |s| && s[i] == '#'
    requires forall j :: 0 <= j < i ==> s[j] != '#'
    ensures StripFirstHash(s) == s[..i] + s[i + 1..]
  {
    if i > 0 {
      StripFirstHashRemovesFirst(s[1..], i - 1);
      assert s[..i] == [s[0]] + s[1..][..i - 1];
      assert s[i + 1..] == s[1..][i..];
    }
  }

  const Two32: int := 0x1_0000_0000

  /** JavaScript's ToInt32: wrap an integer into the signed 32-bit range. */
  function ToInt32(v: int): (w: int)
    ensures -0x8000_0000 <= w < 0x8000_0000
    ensures (v - w) % Two32 == 0
  {
    var u := v % Two32;
    if u >= 0x8000_0000 then u - Two32 else u
  }

  /** A value already in the non-negative 32-bit signed range is kept as it is. */
  lemma ToInt32Small(v: int)
    requires 0 <= v < 0x8000_0000
    ensures ToInt32(v) == v
  {
  }

  /**
   `(n >> shift) & 255` on a signed 32-bit `n`: the arithmetic shift is a
   floor division by 2^shift (Dafny's `/` by a positive divisor floors) and
   the mask of a two's-complement value is its remainder modulo 256.
   */
  function Byte(n: int, shift: nat): (b: int)
    requires shift == 0 || shift == 8 || shift == 16
    ensures 0 <= b < 256
  {
    (n / (if shift == 16 then 0x1_0000 else if shift == 8 then 0x100 else 1)) % 256
  }

  /**
   The inputs this model covers: after removing the first `#`, nothing but
   hex digits, at most 13 of them, so that `parseInt` returns the exact value
   (16^13 = 2^52 is below 2^53).
   */
  predicate WellFormed(hex: string) {
    var d := StripFirstHash(hex);
    AllHex(d) && |d| <= 13
  }

  /**
   `hexToRgb`. An empty digit string parses to NaN, which every bit operator
   treats as 0, so the colour is black.
   */
  function HexToRgb(hex: string): (c: Rgb)
    requires WellFormed(hex)
    ensures 0.0 <= c.r <= 1.0 && 0.0 <= c.g <= 1.0 && 0.0 <= c.b <= 1.0
    ensures StripFirstHash(hex) == [] ==> c == Rgb(0.0, 0.0, 0.0)
  {
    var d := StripFirstHash(hex);
    RgbOf(if |d| == 0 then 0 else ToInt32(ParseHex(d)))
  }

  /** The three bytes of a signed 32-bit `n`, each divided by 255. */
  function RgbOf(n: int): (c: Rgb)
    ensures 0.0 <= c.r <= 1.0 && 0.0 <= c.g <= 1.0 && 0.0 <= c.b <= 1.0
  {
    Rgb(Byte(n, 16) as real / 255.0, Byte(n, 8) as real / 255.0, Byte(n, 0) as real / 255.0)
  }

  lemma AllHexConcat(a: string, b: string)
    requires AllHex(a) && AllHex(b)
    ensures AllHex(a + b)
  {
    forall i | 0 <= i < |a + b|
      ensures IsHexDigit((a + b)[i])
    {
      if i < |a| { assert (a + b)[i] == a[i]; } else { assert (a + b)[i] == b[i - |a|]; }
    }
  }

  /** Reading digits left to right: the value of `a + b` is `a`'s value shifted past `b`'s digits, plus `b`'s. */
  lemma {:induction false} ParseHexAppend(a: string, b: string)
    requires AllHex(a) && AllHex(b) && AllHex(a + b)
    ensures ParseHex(a + b) == ParseHex(a) * Pow16(|b|) + ParseHex(b)
    decreases |b|
  {
    if |b| == 0 {
      assert a + b == a;
    } else {
      var b', last := b[..|b| - 1], b[|b| - 1];
      assert AllHex(b') by {
        forall i | 0 <= i < |b'|
          ensures IsHexDigit(b'[i])
        {
          assert b'[i] == b[i];
        }
      }
      ParseHexAppend(a, b');
      var x, p, y, c := ParseHex(a), Pow16(|b'|), ParseHex(b'), DigitValue(last);
      assert ParseHex(a + b) == ParseHex(a + b') * 16 + c by {
        assert (a + b)[..|a + b| - 1] == a + b';
        assert (a + b)[|a + b| - 1] == last;
      }
      assert ParseHex(b) == y * 16 + c && Pow16(|b|) == p * 16;
      ShiftDigit(x, p, y, c);
    }
  }

  lemma ShiftDigit(x: int, p: int, y: int, c: int)
    ensures (x * p + y) * 16 + c == x * (p * 16) + (y * 16 + c)
  {
  }

  /** Two hex digits `XY` read as the byte `16 * X + Y`. */
  lemma ParsePair(s: string)
    requires |s| == 2 && AllHex(s)
    ensures ParseHex(s) == 16 * DigitValue(s[0]) + DigitValue(s[1])
    ensures ParseHex(s) < 256
  {
    assert s[..1][..0] == [];
    assert ParseHex(s[..1]) == DigitValue(s[0]);
  }

  /** Appending two more digits shifts the value by one byte. */
  lemma AppendPair(a: string, b: string)
    requires |b| == 2 && AllHex(a) && AllHex(b)
    ensures AllHex(a + b)
    ensures ParseHex(a + b) == ParseHex(a) * 0x100 + ParseHex(b)
  {
    AllHexConcat(a, b);
    ParseHexAppend(a, b);
    assert Pow16(|b|) == 0x100;
  }

  /** Six hex digits `RRGGBB` read as `RR * 65536 + GG * 256 + BB`. */
  lemma ParseSix(d: string)
    requires |d| == 6 && AllHex(d)
    ensures AllHex(d[..2]) && AllHex(d[2..4]) && AllHex(d[4..])
    ensures ParseHex(d) == ParseHex(d[..2]) * 0x1_0000 + ParseHex(d[2..4]) * 0x100 + ParseHex(d[4..])
  {
    var rr, gg, bb := d[..2], d[2..4], d[4..];
    assert AllHex(rr) && AllHex(gg) && AllHex(bb) by {
      forall i | 0 <= i < 2
        ensures IsHexDigit(rr[i]) && IsHexDigit(gg[i]) && IsHexDigit(bb[i])
      {
        assert rr[i] == d[i] && gg[i] == d[i + 2] && bb[i] == d[i + 4];
      }
    }
    AppendPair(rr, gg);
    AppendPair(rr + gg, bb);
    assert d == (rr + gg) + bb;
  }

  /** Picking the three bytes back out of `R * 65536 + G * 256 + B`. */
  lemma BytesOf(r: int, g: int, b: int)
    requires 0 <= r < 256 && 0 <= g < 256 && 0 <= b < 256
    ensures var n := r * 0x1_0000 + g * 0x100 + b;
      Byte(n, 16) == r && Byte(n, 8) == g && Byte(n, 0) == b
  {
    var n := r * 0x1_0000 + g * 0x100 + b;
    assert n / 0x1_0000 == r;
    assert n / 0x100 == r * 0x100 + g;
    assert (r * 0x100 + g) % 256 == g;
    assert n % 256 == b;
  }

  /** Hex digits contain no `#`, so with or without a leading `#` the digits are what remains. */
  lemma StripHash(d: string)
    requires AllHex(d)
    ensures StripFirstHash(d) == d && StripFirstHash("#" + d) == d
  {
    assert forall i :: 0 <= i < |d| ==> d[i] != '#' by {
      forall i | 0 <= i < |d|
        ensures d[i] != '#'
      {
        assert IsHexDigit(d[i]);
      }
    }
    StripFirstHashWithoutHash(d);
    assert ("#" + d)[1..] == d;
  }

  /**
   For an optional `#` followed by six hex digits `RRGGBB`, the components are
   the three bytes `RR`, `GG` and `BB` divided by 255.
   */
  lemma HexToRgbOfSixDigits(hex: string, d: string)
    requires |d| == 6 && AllHex(d)
    requires hex == d || hex == "#" + d
    ensures WellFormed(hex)
    ensures HexToRgb(hex) == Rgb(ParseHex(d[..2]) as real / 255.0, ParseHex(d[2..4]) as real / 255.0, ParseHex(d[4..]) as real / 255.0)
  {
    StripHash(d);
    ParseSix(d);
    var rr, gg, bb := ParseHex(d[..2]), ParseHex(d[2..4]), ParseHex(d[4..]);
    ParsePair(d[..2]);
    ParsePair(d[2..4]);
    ParsePair(d[4..]);
    var n := ParseHex(d);
    assert n == rr * 0x1_0000 + gg * 0x100 + bb;
    ToInt32Small(n);
    BytesOf(rr, gg, bb);
    assert HexToRgb(hex) == RgbOf(n);
  }

  /** The leading `#` makes no difference. */
  lemma HashIsOptional(d: string)
    requires |d| == 6 && AllHex(d)
    ensures WellFormed(d) && WellFormed("#" + d)
    ensures HexToRgb("#" + d) == HexToRgb(d)
  {
    HexToRgbOfSixDigits(d, d);
    HexToRgbOfSixDigits("#" + d, d);
  }

  /** Orange, `#FF8000`, is full red, half green (128 of 255) and no blue. */
  lemma OrangeExample()
    ensures WellFormed("#FF8000")
    ensures HexToRgb("#FF8000") == Rgb(1.0, 128.0 / 255.0, 0.0)
  {
    var d := "FF8000";
    assert AllHex(d);
    HexToRgbOfSixDigits("#" + d, d);
    var rr, gg, bb := d[..2], d[2..4], d[4..];
    assert rr == "FF" && gg == "80" && bb == "00";
    ParsePair(rr);
    ParsePair(gg);
    ParsePair(bb);
  }

  /** The lower-case digit for a value below 16, as a colour picker writes it. */
  function HexChar(v: nat): (c: char)
    requires v < 16
    ensures IsHexDigit(c) && DigitValue(c) == v
  {
    if v < 10 then ('0' as int + v) as char else ('a' as int + v - 10) as char
  }

  /** A byte as two hex digits. */
  function HexPair(v: nat): (s: string)
    requires v < 256
    ensures |s| == 2 && AllHex(s) && ParseHex(s) == v
  {
    var s := [HexChar(v / 16), HexChar(v % 16)];
    ParsePair(s);
    s
  }

  /** The colour picker's value for three bytes: `#rrggbb`. */
  function ToHex(r: nat, g: nat, b: nat): (hex: string)
    requires r < 256 && g < 256 && b < 256
    ensures |hex| == 7 && hex[0] == '#'
  {
    "#" + HexPair(r) + HexPair(g) + HexPair(b)
  }

  /** Reading back a colour the picker wrote gives each byte divided by 255. */
  lemma HexToRgbOfToHex(r: nat, g: nat, b: nat)
    requires r < 256 && g < 256 && b < 256
    ensures WellFormed(ToHex(r, g, b))
    ensures HexToRgb(ToHex(r, g, b)) == Rgb(r as real / 255.0, g as real / 255.0, b as real / 255.0)
  {
    var d := HexPair(r) + HexPair(g) + HexPair(b);
    assert d[..2] == HexPair(r) && d[2..4] == HexPair(g) && d[4..] == HexPair(b);
    assert AllHex(d) by {
      forall i | 0 <= i < 6
        ensures IsHexDigit(d[i])
      {
        if i < 2 { assert d[i] == HexPair(r)[i]; }
        else if i < 4 { assert d[i] == HexPair(g)[i - 2]; }
        else { assert d[i] == HexPair(b)[i - 4]; }
      }
    }
    assert ToHex(r, g, b) == "#" + d;
    HexToRgbOfSixDigits(ToHex(r, g, b), d);
  }
}
