/**
 * Hex colours of `Color` (UIColor / NSColor): the channel extractors `hex3`,
 * `hex4`, `hex6` and `hex8`, the string front end `hex(_:)`, and the Flat UI
 * palette built from `hex6` constants.
 *
 * A colour is kept as integer channels over a divisor (15 for nibbles, 255 for
 * bytes); a default alpha of 1.0 is the channel value `divisor`. The extractors
 * compute `CGFloat(x) / divisor` and hand it to `init(red:green:blue:alpha:p3:)`,
 * which divides red, green and blue by 255 a second time: `ComponentsAsWritten`
 * models that, `Components` the evidently intended channel / divisor.
 */
module ColorExtension {
  import opened Wrappers

  /** `.white`, or a colour given by its integer channels and their divisor. */
  datatype Color = White | Channels(red: bv8, green: bv8, blue: bv8, alpha: bv8, divisor: bv8)

  /** What `hex(_:)` does: return a colour, or trap when `UInt16(_)` / `UInt32(_)`
      is handed a value it cannot represent. */
  datatype Outcome = Returns(color: Color) | Traps

  // ---------------------------------------------------------------------------
  // Channel extraction
  // ---------------------------------------------------------------------------

  /** `hex3`: three nibbles 0xRGB, alpha left at its default 1.0. */
  function Hex3(hex3: bv16): (c: Color)
    ensures c.Channels? && c.divisor == 15 && c.alpha == c.divisor
    ensures c.red < 16 && c.green < 16 && c.blue < 16
    ensures ((c.red as bv16) << 8) | ((c.green as bv16) << 4) | (c.blue as bv16) == hex3 & 0xFFF
  {
    Channels(((hex3 & 0xF00) >> 8) as bv8, ((hex3 & 0x0F0) >> 4) as bv8, (hex3 & 0x00F) as bv8, 15, 15)
  }

  /** `hex4` as written. In Swift `hex4 & 0x00F0 >> 4` means `hex4 & (0x00F0 >> 4)`,
      because `>>` binds tighter than `&` there (in Dafny it is the other way round,
      hence the explicit parentheses): blue is the low nibble, like alpha, and the
      third nibble is never read. */
  function Hex4(hex4: bv16): (c: Color)
    ensures c.Channels? && c.divisor == 15
    ensures c.red < 16 && c.green < 16 && c.blue < 16 && c.alpha < 16
    ensures c.blue == c.alpha
    ensures ((c.red as bv16) << 12) | ((c.green as bv16) << 8) | (c.alpha as bv16) == hex4 & 0xFF0F
  {
    Channels(((hex4 & 0xF000) >> 12) as bv8, ((hex4 & 0x0F00) >> 8) as bv8,
             (hex4 & (0x00F0 >> 4)) as bv8, (hex4 & 0x000F) as bv8, 15)
  }

  /** `hex6`: three bytes 0xRRGGBB, alpha left at its default 1.0. */
  function Hex6(hex6: bv32): (c: Color)
    ensures c.Channels? && c.divisor == 255 && c.alpha == c.divisor
    ensures ((c.red as bv32) << 16) | ((c.green as bv32) << 8) | (c.blue as bv32) == hex6 & 0xFFFFFF
  {
    Channels(((hex6 & 0xFF0000) >> 16) as bv8, ((hex6 & 0x00FF00) >> 8) as bv8, (hex6 & 0x0000FF) as bv8, 255, 255)
  }

  /** `hex8`: four bytes 0xRRGGBBAA. */
  function Hex8(hex8: bv32): (c: Color)
    ensures c.Channels? && c.divisor == 255
    ensures ((c.red as bv32) << 24) | ((c.green as bv32) << 16) | ((c.blue as bv32) << 8) | (c.alpha as bv32) == hex8
  {
    Channels(((hex8 & 0xFF000000) >> 24) as bv8, ((hex8 & 0x00FF0000) >> 16) as bv8,
             ((hex8 & 0x0000FF00) >> 8) as bv8, (hex8 & 0x000000FF) as bv8, 255)
  }

  /** The value 0xRGB that a caller writes for three nibbles. */
  function Pack3(red: bv8, green: bv8, blue: bv8): bv16
    requires red < 16 && green < 16 && blue < 16
  {
    ((red as bv16) << 8) | ((green as bv16) << 4) | (blue as bv16)
  }

  /** The value 0xRGBA that a caller writes for four nibbles. */
  function Pack4(red: bv8, green: bv8, blue: bv8, alpha: bv8): bv16
    requires red < 16 && green < 16 && blue < 16 && alpha < 16
  {
    ((red as bv16) << 12) | ((green as bv16) << 8) | ((blue as bv16) << 4) | (alpha as bv16)
  }

  /** The value 0xRRGGBB that a caller writes for three bytes. */
  function Pack6(red: bv8, green: bv8, blue: bv8): bv32
  {
    ((red as bv32) << 16) | ((green as bv32) << 8) | (blue as bv32)
  }

  /** The value 0xRRGGBBAA that a caller writes for four bytes. */
  function Pack8(red: bv8, green: bv8, blue: bv8, alpha: bv8): bv32
  {
    ((red as bv32) << 24) | ((green as bv32) << 16) | ((blue as bv32) << 8) | (alpha as bv32)
  }

  /** Writing channels as 0xRGB, 0xRRGGBB or 0xRRGGBBAA and extracting them
      gives the same channels back. */
  lemma ExtractionInvertsPacking(red: bv8, green: bv8, blue: bv8, alpha: bv8)
    ensures red < 16 && green < 16 && blue < 16 ==> Hex3(Pack3(red, green, blue)) == Channels(red, green, blue, 15, 15)
    ensures Hex6(Pack6(red, green, blue)) == Channels(red, green, blue, 255, 255)
    ensures Hex8(Pack8(red, green, blue, alpha)) == Channels(red, green, blue, alpha, 255)
  {
  }

  /** The `hex4` quirk: 0xRGBA comes out with the blue nibble replaced by alpha,
      so two values differing only in their third nibble give the same colour. */
  lemma Hex4DropsBlue(red: bv8, green: bv8, blue: bv8, alpha: bv8)
    requires red < 16 && green < 16 && blue < 16 && alpha < 16
    ensures Hex4(Pack4(red, green, blue, alpha)) == Channels(red, green, alpha, alpha, 15)
    ensures Hex4(Pack4(red, green, blue, alpha)) == Hex4(Pack4(red, green, 0, alpha))
  {
  }

  // ---------------------------------------------------------------------------
  // Components: what becomes of the channels
  // ---------------------------------------------------------------------------

  /** Red, green, blue and alpha as `CGFloat`s. */
  datatype Rgba = Rgba(red: real, green: real, blue: real, alpha: real)

  function Real(x: bv8): real
  {
    (x as int) as real
  }

  /** `init(red:green:blue:alpha:p3:)` (lines 165-167): red, green and blue are
      taken on a 0-255 scale and divided by 255, alpha is passed through. The
      P3 and sRGB branches divide alike; the colour space is not modelled. */
  function InitRgb(red: real, green: real, blue: real, alpha: real): (c: Rgba)
    ensures 0.0 <= red <= 255.0 ==> 0.0 <= c.red <= 1.0
    ensures 0.0 <= green <= 255.0 ==> 0.0 <= c.green <= 1.0
    ensures 0.0 <= blue <= 255.0 ==> 0.0 <= c.blue <= 1.0
    ensures 0.0 <= red <= 1.0 ==> c.red <= 1.0 / 255.0
    ensures 0.0 <= green <= 1.0 ==> c.green <= 1.0 / 255.0
    ensures 0.0 <= blue <= 1.0 ==> c.blue <= 1.0 / 255.0
    ensures c.alpha == alpha
  {
    Rgba(red / 255.0, green / 255.0, blue / 255.0, alpha)
  }

  /** The components of an extracted colour as written: every extractor passes
      `CGFloat(channel) / divisor` to `InitRgb`. */
  function ComponentsAsWritten(c: Color): Rgba
    requires c.Channels? && c.divisor != 0
  {
    InitRgb(Real(c.red) / Real(c.divisor), Real(c.green) / Real(c.divisor),
            Real(c.blue) / Real(c.divisor), Real(c.alpha) / Real(c.divisor))
  }

  /** The components evidently intended: each channel over its divisor. */
  function Components(c: Color): Rgba
    requires c.Channels? && c.divisor != 0
  {
    Rgba(Real(c.red) / Real(c.divisor), Real(c.green) / Real(c.divisor),
         Real(c.blue) / Real(c.divisor), Real(c.alpha) / Real(c.divisor))
  }

  predicate InUnitRange(r: Rgba)
  {
    0.0 <= r.red <= 1.0 && 0.0 <= r.green <= 1.0 && 0.0 <= r.blue <= 1.0 && 0.0 <= r.alpha <= 1.0
  }

  /** As written, red, green and blue end up divided by 255 twice: "#FFFFFF"
      and 0xFFF, full intensity, come out at 1/255 (almost black), and
      turquoise 0x1abc9c at 26/255^2, 188/255^2, 156/255^2. */
  lemma ExtractorsDivideTwice(c: Color)
    requires c.Channels? && c.divisor != 0
    ensures ComponentsAsWritten(c)
         == Rgba(Components(c).red / 255.0, Components(c).green / 255.0, Components(c).blue / 255.0, Components(c).alpha)
    ensures ComponentsAsWritten(Hex6(0xFFFFFF)) == Rgba(1.0 / 255.0, 1.0 / 255.0, 1.0 / 255.0, 1.0)
    ensures ComponentsAsWritten(Hex3(0xFFF)) == Rgba(1.0 / 255.0, 1.0 / 255.0, 1.0 / 255.0, 1.0)
    ensures ComponentsAsWritten(Hex6(0x1abc9c))
         == Rgba(26.0 / 65025.0, 188.0 / 65025.0, 156.0 / 65025.0, 1.0)
  {
    assert Hex6(0xFFFFFF) == Channels(255, 255, 255, 255, 255);
    assert Hex3(0xFFF) == Channels(15, 15, 15, 15, 15);
    assert Hex6(0x1abc9c) == Channels(26, 188, 156, 255, 255);
  }

  /** With the intended components every extracted colour lies in the unit range. */
  lemma ExtractedComponentsInUnitRange(h16: bv16, h32: bv32)
    ensures InUnitRange(Components(Hex3(h16))) && InUnitRange(Components(Hex4(h16)))
    ensures InUnitRange(Components(Hex6(h32))) && InUnitRange(Components(Hex8(h32)))
  {
    NibbleChannelsInRange(Hex3(h16));
    NibbleChannelsInRange(Hex4(h16));
    ByteChannelsInRange(Hex6(h32));
    ByteChannelsInRange(Hex8(h32));
  }

  /** With the intended components full intensity is 1 and a byte b of
      `hex8` is the component b / 255. */
  lemma IntendedComponentsOfBytes(red: bv8, green: bv8, blue: bv8, alpha: bv8)
    ensures Components(Hex6(0xFFFFFF)) == Rgba(1.0, 1.0, 1.0, 1.0)
    ensures Components(Hex3(0xFFF)) == Rgba(1.0, 1.0, 1.0, 1.0)
    ensures Components(Hex8(Pack8(red, green, blue, alpha)))
         == Rgba(Real(red) / 255.0, Real(green) / 255.0, Real(blue) / 255.0, Real(alpha) / 255.0)
  {
    assert Real(255) == 255.0 && Real(15) == 15.0;
    assert Hex6(0xFFFFFF) == Channels(255, 255, 255, 255, 255);
    assert Hex3(0xFFF) == Channels(15, 15, 15, 15, 15);
    ExtractionInvertsPacking(red, green, blue, alpha);
    var c := Channels(red, green, blue, alpha, 255);
    assert Hex8(Pack8(red, green, blue, alpha)) == c;
    assert Components(c) == Rgba(Real(red) / 255.0, Real(green) / 255.0, Real(blue) / 255.0, Real(alpha) / 255.0);
  }

  /** Bytes over 255 give components in [0, 1]. */
  lemma ByteChannelsInRange(c: Color)
    requires c.Channels? && c.divisor == 255
    ensures InUnitRange(Components(c))
  {
    Fraction(c.red as int, 255);
    Fraction(c.green as int, 255);
    Fraction(c.blue as int, 255);
    Fraction(c.alpha as int, 255);
  }

  /** Nibbles over 15 give components in [0, 1]. */
  lemma NibbleChannelsInRange(c: Color)
    requires c.Channels? && c.divisor == 15
    requires c.red < 16 && c.green < 16 && c.blue < 16 && c.alpha < 16
    ensures InUnitRange(Components(c))
  {
    assert c.red as int < 16 && c.green as int < 16 && c.blue as int < 16 && c.alpha as int < 16;
    Fraction(c.red as int, 15);
    Fraction(c.green as int, 15);
    Fraction(c.blue as int, 15);
    Fraction(c.alpha as int, 15);
  }

  lemma Fraction(x: int, d: int)
    requires 0 <= x <= d && 0 < d
    ensures 0.0 <= (x as real) / (d as real) <= 1.0
  {
    assert (x as real) <= (d as real);
  }

  // ---------------------------------------------------------------------------
  // String normalisation: trimming, lowercasing, removing "#" and "0x"
  // ---------------------------------------------------------------------------

  /** Foundation's `whitespacesAndNewlines`: general category Z*, U+0009 to U+000D and U+0085. */
  predicate IsWhitespace(ch: char)
  {
    || ('\t' <= ch <= '\r')
    || ch == ' ' || ch == '\U{0085}' || ch == '\U{00A0}' || ch == '\U{1680}'
    || ('\U{2000}' <= ch <= '\U{200A}')
    || ch == '\U{2028}' || ch == '\U{2029}' || ch == '\U{202F}' || ch == '\U{205F}' || ch == '\U{3000}'
  }

  predicate AllWhitespace(s: string)
  {
    forall i :: 0 <= i < |s| ==> IsWhitespace(s[i])
  }

  /** Drops the whitespace at the front of `s`. */
  function TrimLeading(s: string): string
  {
    if s != [] && IsWhitespace(s[0]) then TrimLeading(s[1..]) else s
  }

  /** Drops the whitespace at the back of `s`. */
  function TrimTrailing(s: string): string
  {
    if s != [] && IsWhitespace(s[|s| - 1]) then TrimTrailing(s[..|s| - 1]) else s
  }

  /** `trimmingCharacters(in: .whitespacesAndNewlines)`. */
  function Trim(s: string): string
  {
    TrimTrailing(TrimLeading(s))
  }

  /** Trimming the front removes a whitespace prefix, and no more than that:
      what is left does not start with whitespace. */
  lemma {:induction false} TrimLeadingRemovesPrefix(s: string)
    ensures var t := TrimLeading(s);
      |t| <= |s| && t == s[|s| - |t|..] && AllWhitespace(s[..|s| - |t|])
      && (t == [] || !IsWhitespace(t[0]))
    decreases |s|
  {
    if s != [] && IsWhitespace(s[0]) {
      var rest := s[1..];
      TrimLeadingRemovesPrefix(rest);
      var t := TrimLeading(rest);
      var n := |s| - |t|;
      assert rest[n - 1..] == s[n..];
      assert AllWhitespace(rest[..n - 1]);
      forall k | 0 <= k < n
        ensures IsWhitespace(s[..n][k])
      {
        if k == 0 {
          assert s[..n][0] == s[0];
        } else {
          assert s[..n][k] == rest[..n - 1][k - 1];
          assert IsWhitespace(rest[..n - 1][k - 1]);
        }
      }
    }
  }

  /** Trimming the back removes a whitespace suffix, and no more than that:
      what is left does not end with whitespace. */
  lemma {:induction false} TrimTrailingRemovesSuffix(s: string)
    ensures var t := TrimTrailing(s);
      |t| <= |s| && t == s[..|t|] && AllWhitespace(s[|t|..])
      && (t == [] || !IsWhitespace(t[|t| - 1]))
    decreases |s|
  {
    if s != [] && IsWhitespace(s[|s| - 1]) {
      var p := s[..|s| - 1];
      TrimTrailingRemovesSuffix(p);
      var t := TrimTrailing(p);
      assert p[..|t|] == s[..|t|];
      assert s[|t|..] == p[|t|..] + [s[|s| - 1]];
    }
  }

  /** `Trim(s)` is `s` without its leading and trailing whitespace: a middle
      slice of `s`, with only whitespace around it, and not itself starting or
      ending with whitespace. */
  lemma TrimRemovesSurroundingWhitespace(s: string)
    ensures exists i, j {:trigger s[i..j]} ::
              (0 <= i <= j <= |s| && Trim(s) == s[i..j] && AllWhitespace(s[..i]) && AllWhitespace(s[j..]))
    ensures Trim(s) == [] || (!IsWhitespace(Trim(s)[0]) && !IsWhitespace(Trim(s)[|Trim(s)| - 1]))
  {
    var l := TrimLeading(s);
    TrimLeadingRemovesPrefix(s);
    TrimTrailingRemovesSuffix(l);
    var t := TrimTrailing(l);
    var i := |s| - |l|;
    var j := i + |t|;
    assert t == s[i..j];
    assert s[j..] == l[|t|..];
    if t != [] {
      assert t[0] == l[0];
    }
  }

  function LowerChar(ch: char): char
  {
    if 'A' <= ch <= 'Z' then (ch as int + 32) as char else ch
  }

  function UpperChar(ch: char): char
  {
    if 'a' <= ch <= 'z' then (ch as int - 32) as char else ch
  }

  /** `lowercased()`, on the ASCII letters (see README for why that suffices). */
  function Lowercased(s: string): string
  {
    seq(|s|, i requires 0 <= i < |s| => LowerChar(s[i]))
  }

  /** `uppercased()`, on the ASCII letters. */
  function Uppercased(s: string): string
  {
    seq(|s|, i requires 0 <= i < |s| => UpperChar(s[i]))
  }

  predicate HasPrefix(s: string, prefix: string)
  {
    |prefix| <= |s| && s[..|prefix|] == prefix
  }

  /** `s.replacingOccurrences(of: pattern, with: "")`: one scan from the left that
      deletes every non-overlapping occurrence, not only a leading one. */
  function RemoveAll(s: string, pattern: string): (r: string)
    requires pattern != []
    ensures |r| <= |s|
    decreases |s|
  {
    if |s| < |pattern| then s
    else if s[..|pattern|] == pattern then RemoveAll(s[|pattern|..], pattern)
    else [s[0]] + RemoveAll(s[1..], pattern)
  }

  /** Removing a one-character pattern leaves none of that character behind. */
  lemma {:induction false} RemoveAllSingle(s: string, ch: char)
    ensures forall i :: 0 <= i < |RemoveAll(s, [ch])| ==> RemoveAll(s, [ch])[i] != ch
    decreases |s|
  {
    if |s| >= 1 {
      if s[..1] == [ch] {
        RemoveAllSingle(s[1..], ch);
      } else {
        RemoveAllSingle(s[1..], ch);
        var rest := RemoveAll(s[1..], [ch]);
        assert RemoveAll(s, [ch]) == [s[0]] + rest;
      }
    }
  }

  /** The characters of `s` other than `ch`, in their order: an independent
      filter against which removal of a one-character pattern is checked. */
  function Without(s: string, ch: char): (r: string)
    ensures multiset(r) == multiset(s)[ch := 0]
    decreases |s|
  {
    if s == [] then []
    else
      assert s == [s[0]] + s[1..];
      (if s[0] == ch then [] else [s[0]]) + Without(s[1..], ch)
  }

  /** Removing a one-character pattern keeps every other character, in order. */
  lemma {:induction false} RemoveAllOfCharIsFilter(s: string, ch: char)
    ensures RemoveAll(s, [ch]) == Without(s, ch)
    decreases |s|
  {
    if s != [] {
      RemoveAllOfCharIsFilter(s[1..], ch);
      if s[0] == ch {
        assert s[..1] == [ch];
      } else {
        assert s[..1] != [ch] by { assert s[..1][0] == s[0]; }
      }
    }
  }

  /** A leading occurrence goes and the scan carries on right after it. */
  lemma RemoveAllSkipsLeading(pattern: string, s: string)
    requires pattern != []
    ensures RemoveAll(pattern + s, pattern) == RemoveAll(s, pattern)
  {
    assert (pattern + s)[..|pattern|] == pattern;
    assert (pattern + s)[|pattern|..] == s;
  }

  /** An occurrence of "0x" anywhere is deleted, and the parts on either side
      are scanned as if it were not there: "0x" cannot overlap itself, so no
      match crosses its borders. */
  lemma {:induction false} RemoveAllDropsInner0x(a: string, b: string)
    ensures RemoveAll(a + "0x" + b, "0x") == RemoveAll(a, "0x") + RemoveAll(b, "0x")
    decreases |a|
  {
    var s := a + "0x" + b;
    if a == [] {
      assert s == "0x" + b;
      RemoveAllSkipsLeading("0x", b);
    } else if |a| == 1 {
      assert s[..2] != "0x" by { assert s[..2][1] == '0'; }
      assert s[1..] == "0x" + b;
      RemoveAllKeepsFirst(s, "0x");
      RemoveAllSkipsLeading("0x", b);
    } else if a[..2] == "0x" {
      var rest := a[2..];
      assert a == "0x" + rest;
      assert s == "0x" + (rest + "0x" + b);
      RemoveAllSkipsLeading("0x", rest + "0x" + b);
      RemoveAllSkipsLeading("0x", rest);
      RemoveAllDropsInner0x(rest, b);
    } else {
      assert s[..2] == a[..2];
      assert s[1..] == a[1..] + "0x" + b;
      RemoveAllKeepsFirst(s, "0x");
      RemoveAllKeepsFirst(a, "0x");
      RemoveAllDropsInner0x(a[1..], b);
    }
  }

  /** A position where the pattern does not start keeps its character. */
  lemma RemoveAllKeepsFirst(s: string, pattern: string)
    requires pattern != [] && |pattern| <= |s| && s[..|pattern|] != pattern
    ensures RemoveAll(s, pattern) == [s[0]] + RemoveAll(s[1..], pattern)
  {
  }

  /** A string lacking one of the pattern's characters is left as it is. */
  lemma {:induction false} RemoveAllWithoutMatch(s: string, pattern: string, k: nat)
    requires k < |pattern|
    requires forall i :: 0 <= i < |s| ==> s[i] != pattern[k]
    ensures RemoveAll(s, pattern) == s
    decreases |s|
  {
    if |s| >= |pattern| {
      assert s[..|pattern|][k] == s[k] != pattern[k];
      RemoveAllWithoutMatch(s[1..], pattern, k);
      assert [s[0]] + s[1..] == s;
    }
  }

  /** One scan is not a fixpoint: "00xx" loses the "0x" in its middle and the
      two characters around it close up into a new "0x". */
  lemma RemoveAllIsOnePass()
    ensures RemoveAll("00xx", "0x") == "0x"
  {
    assert "00xx"[..2][1] != "0x"[1];
    assert "00xx"[1..] == "0xx";
    assert "0xx"[..2] == "0x";
    assert "0xx"[2..] == "x";
    assert RemoveAll("x", "0x") == "x";
  }

  /** The string `hex(_:)` hands to the parser (source lines 253-255). */
  function Clean(s: string): string
  {
    var str := Lowercased(Trim(s));
    var str1 := if HasPrefix(str, "#") then RemoveAll(str, "#") else str;
    if HasPrefix(str1, "0x") then RemoveAll(str1, "0x") else str1
  }

  // ---------------------------------------------------------------------------
  // `Int(_:radix: 16)`
  // ---------------------------------------------------------------------------

  predicate IsHexDigit(ch: char)
  {
    '0' <= ch <= '9' || 'a' <= ch <= 'f' || 'A' <= ch <= 'F'
  }

  predicate AllHexDigits(s: string)
  {
    forall i :: 0 <= i < |s| ==> IsHexDigit(s[i])
  }

  function DigitValue(ch: char): (v: nat)
    requires IsHexDigit(ch)
    ensures v < 16
  {
    if '0' <= ch <= '9' then ch as int - '0' as int
    else if 'a' <= ch <= 'f' then ch as int - 'a' as int + 10
    else ch as int - 'A' as int + 10
  }

  function Pow16(n: nat): (r: nat)
    ensures r >= 1
  {
    if n == 0 then 1 else 16 * Pow16(n - 1)
  }

  lemma {:induction false} Pow16Monotonic(m: nat, n: nat)
    requires m <= n
    ensures Pow16(m) <= Pow16(n)
    decreases n
  {
    if m < n {
      Pow16Monotonic(m, n - 1);
    }
  }

  /** The powers of sixteen the digit-count bounds use. */
  lemma Pow16Values()
    ensures Pow16(2) == 0x100 && Pow16(3) == 0x1000 && Pow16(4) == 0x1_0000
    ensures Pow16(6) == 0x100_0000 && Pow16(7) == 0x1000_0000 && Pow16(8) == 0x1_0000_0000
  {
  }

  /** The number that a string of hex digits denotes, most significant digit first. */
  function HexValue(d: string): (v: nat)
    requires AllHexDigits(d)
    ensures v < Pow16(|d|)
  {
    if d == [] then 0 else 16 * HexValue(d[..|d| - 1]) + DigitValue(d[|d| - 1])
  }

  const Int64Min: int := -0x8000_0000_0000_0000
  const Int64Max: int := 0x7FFF_FFFF_FFFF_FFFF

  /** `Int(s, radix: 16)`: an optional sign, then at least one hex digit of
      either case, and the value must fit in a 64-bit `Int`. */
  function ParseHex(s: string): (r: Option<int>)
    ensures r.Some? ==> Int64Min <= r.value <= Int64Max
    ensures r.Some? && r.value >= 0 ==> r.value < Pow16(|s|)
    ensures r.Some? && r.value < 0 ==> s != [] && s[0] == '-'
  {
    if s == [] then None
    else if s[0] == '-' || s[0] == '+' then
      Pow16Monotonic(|s| - 1, |s|);
      ParseDigits(s[0] == '-', s[1..])
    else ParseDigits(false, s)
  }

  /** The digits after the optional sign: none, or any non-digit, is a failure,
      and so is a value outside the 64-bit range. */
  function ParseDigits(negative: bool, digits: string): (r: Option<int>)
    ensures r.Some? ==> Int64Min <= r.value <= Int64Max
    ensures r.Some? && r.value >= 0 ==> r.value < Pow16(|digits|)
    ensures r.Some? && r.value < 0 ==> negative
  {
    if digits == [] || !AllHexDigits(digits) then None
    else
      var v: int := if negative then -(HexValue(digits) as int) else HexValue(digits);
      if Int64Min <= v <= Int64Max then Some(v) else None
  }

  // ---------------------------------------------------------------------------
  // `hex(_:)`
  // ---------------------------------------------------------------------------

  /** `Color.hex(_:)`: normalise, then parse and dispatch. */
  function Hex(s: string): Outcome
  {
    Dispatch(Clean(s))
  }

  /** The second half of `hex(_:)`: parse the cleaned string in radix 16 and
      dispatch on its length. */
  function Dispatch(str: string): (o: Outcome)
    ensures o == Returns(White) <==> ParseHex(str).None? || |str| !in {3, 4, 6, 8}
    ensures o == Traps ==> str != [] && str[0] == '-'
  {
    Pow16Values();
    match ParseHex(str)
    case None => Returns(White)
    case Some(rgb) =>
      if |str| == 3 then (if 0 <= rgb < 0x1_0000 then Returns(Hex3(rgb as bv16)) else Traps)
      else if |str| == 4 then (if 0 <= rgb < 0x1_0000 then Returns(Hex4(rgb as bv16)) else Traps)
      else if |str| == 6 then (if 0 <= rgb < 0x1_0000_0000 then Returns(Hex6(rgb as bv32)) else Traps)
      else if |str| == 8 then (if 0 <= rgb < 0x1_0000_0000 then Returns(Hex8(rgb as bv32)) else Traps)
      else Returns(White)
  }

  /** Lowercasing does not change what a digit string denotes. */
  lemma {:induction false} HexValueLowercased(d: string)
    requires AllHexDigits(d)
    ensures AllHexDigits(Lowercased(d)) && HexValue(Lowercased(d)) == HexValue(d)
    decreases |d|
  {
    if d != [] {
      var p := d[..|d| - 1];
      HexValueLowercased(p);
      assert Lowercased(d)[..|d| - 1] == Lowercased(p);
    }
  }

  /** A string of one to eight digits, with or without a sign, parses to its value. */
  lemma ParseHexDigits(d: string)
    requires AllHexDigits(d) && 0 < |d| <= 8
    ensures ParseHex(d) == Some(HexValue(d))
    ensures ParseHex("+" + d) == Some(HexValue(d))
    ensures ParseHex("-" + d) == Some(-(HexValue(d) as int))
  {
    assert d[0] != '-' && d[0] != '+';
    ParseDigitsOfDigits(false, d);
    ParseHexSigned(d, '+');
    ParseHexSigned(d, '-');
  }

  lemma ParseHexSigned(d: string, sign: char)
    requires AllHexDigits(d) && 0 < |d| <= 8 && (sign == '+' || sign == '-')
    ensures ParseHex([sign] + d) == Some(if sign == '-' then -(HexValue(d) as int) else HexValue(d))
  {
    var s := [sign] + d;
    assert s[0] == sign && s[1..] == d;
    assert ParseHex(s) == ParseDigits(sign == '-', d);
    ParseDigitsOfDigits(sign == '-', d);
  }

  lemma ParseDigitsOfDigits(negative: bool, d: string)
    requires AllHexDigits(d) && 0 < |d| <= 8
    ensures ParseDigits(negative, d) == Some(if negative then -(HexValue(d) as int) else HexValue(d))
  {
    HexValueBelow(d);
  }

  lemma HexValueBelow(d: string)
    requires AllHexDigits(d) && |d| <= 8
    ensures HexValue(d) < 0x1_0000_0000
  {
    Pow16Monotonic(|d|, 8);
    Pow16Values();
  }

  /** For hex digits `d`, all of these are cleaned to the same lowercase digits:
      `d`, `"#" + d`, `"0x" + d`, `"0X" + d`, `d` between whitespace, and `d` uppercased. */
  lemma CleanOfDigits(d: string, before: string, after: string)
    requires AllHexDigits(d) && AllWhitespace(before) && AllWhitespace(after)
    ensures Clean(d) == Lowercased(d)
    ensures Clean("#" + d) == Lowercased(d)
    ensures Clean("0x" + d) == Lowercased(d)
    ensures Clean("0X" + d) == Lowercased(d)
    ensures Clean(before + d + after) == Lowercased(d)
    ensures Clean(Uppercased(d)) == Lowercased(d)
  {
    LowercasedDigits(d);
    TrimOfDigits(d);
    CleanOfPlain(d, Lowercased(d));
    TrimAround(before, d, after);
    CleanOfPlain(before + d + after, Lowercased(d));
    CleanOfUppercased(d);
    CleanOfHashPrefix(d);
    CleanOfZeroXPrefix("0x", d);
    CleanOfZeroXPrefix("0X", d);
  }

  lemma CleanOfUppercased(d: string)
    requires AllHexDigits(d)
    ensures Clean(Uppercased(d)) == Lowercased(d)
  {
    var up := Uppercased(d);
    UppercasedDigits(d);
    LowercasedDigits(d);
    TrimOfDigits(up);
    CleanOfPlain(up, Lowercased(d));
  }

  lemma UppercasedDigits(d: string)
    requires AllHexDigits(d)
    ensures AllHexDigits(Uppercased(d)) && Lowercased(Uppercased(d)) == Lowercased(d)
  {
  }

  lemma CleanOfHashPrefix(d: string)
    requires AllHexDigits(d)
    ensures Clean("#" + d) == Lowercased(d)
  {
    LowercasedPrefixes();
    LowercasedDigits(d);
    LowercasedConcat("#", d);
    TrimOfDigits("#" + d);
    CleanOfHash("#" + d, Lowercased(d));
  }

  lemma CleanOfZeroXPrefix(prefix: string, d: string)
    requires AllHexDigits(d) && |prefix| == 2 && prefix[0] == '0' && (prefix[1] == 'x' || prefix[1] == 'X')
    ensures Clean(prefix + d) == Lowercased(d)
  {
    LowercasedPrefixes();
    assert prefix == "0x" || prefix == "0X";
    LowercasedDigits(d);
    LowercasedConcat(prefix, d);
    TrimOfDigits(prefix + d);
    CleanOfZeroX(prefix + d, Lowercased(d));
  }

  lemma LowercasedPrefixes()
    ensures Lowercased("#") == "#" && Lowercased("0x") == "0x" && Lowercased("0X") == "0x"
  {
  }

  lemma LowercasedConcat(a: string, b: string)
    ensures Lowercased(a + b) == Lowercased(a) + Lowercased(b)
  {
  }

  /** Lowercase hex digits: no '#', no 'x'. */
  predicate PlainDigits(low: string)
  {
    forall i :: 0 <= i < |low| ==> low[i] != '#' && low[i] != 'x'
  }

  lemma LowercasedDigits(d: string)
    requires AllHexDigits(d)
    ensures PlainDigits(Lowercased(d))
  {
  }

  lemma CleanOfPlain(s: string, low: string)
    requires Lowercased(Trim(s)) == low && PlainDigits(low)
    ensures Clean(s) == low
  {
    assert !HasPrefix(low, "#") by { if |low| >= 1 { assert low[..1][0] == low[0]; } }
    assert !HasPrefix(low, "0x") by { if |low| >= 2 { assert low[..2][1] == low[1]; } }
  }

  lemma CleanOfHash(s: string, low: string)
    requires Lowercased(Trim(s)) == "#" + low && PlainDigits(low)
    ensures Clean(s) == low
  {
    var str := "#" + low;
    assert str[..1] == "#";
    assert str[1..] == low;
    assert RemoveAll(str, "#") == RemoveAll(low, "#");
    RemoveAllWithoutMatch(low, "#", 0);
    assert !HasPrefix(low, "0x") by { if |low| >= 2 { assert low[..2][1] == low[1]; } }
  }

  lemma CleanOfZeroX(s: string, low: string)
    requires Lowercased(Trim(s)) == "0x" + low && PlainDigits(low)
    ensures Clean(s) == low
  {
    var str := "0x" + low;
    assert !HasPrefix(str, "#") by { assert str[..1][0] == '0'; }
    assert str[..2] == "0x";
    assert str[2..] == low;
    assert RemoveAll(str, "0x") == RemoveAll(low, "0x");
    RemoveAllWithoutMatch(low, "0x", 1);
  }

  /** Trimming leaves a string alone when neither end is whitespace. */
  lemma TrimOfDigits(s: string)
    requires s == [] || (!IsWhitespace(s[0]) && !IsWhitespace(s[|s| - 1]))
    ensures Trim(s) == s
  {
  }

  /** Trimming removes exactly the whitespace around a string of hex digits. */
  lemma TrimAround(before: string, d: string, after: string)
    requires AllHexDigits(d) && AllWhitespace(before) && AllWhitespace(after)
    ensures Trim(before + d + after) == d
  {
    TrimLeadingSkips(before, d + after);
    assert before + d + after == before + (d + after);
    if d == [] {
      assert d + after == after;
      TrimLeadingSkips(after, []);
      assert after + [] == after;
    } else {
      assert (d + after)[0] == d[0];
      TrimTrailingSkips(d, after);
    }
  }

  lemma {:induction false} TrimLeadingSkips(ws: string, rest: string)
    requires AllWhitespace(ws)
    ensures TrimLeading(ws + rest) == TrimLeading(rest)
    decreases |ws|
  {
    if ws != [] {
      assert (ws + rest)[1..] == ws[1..] + rest;
      TrimLeadingSkips(ws[1..], rest);
    } else {
      assert ws + rest == rest;
    }
  }

  lemma {:induction false} TrimTrailingSkips(d: string, ws: string)
    requires d != [] && !IsWhitespace(d[|d| - 1]) && AllWhitespace(ws)
    ensures TrimTrailing(d + ws) == d
    decreases |ws|
  {
    if ws != [] {
      var shorter := ws[..|ws| - 1];
      assert (d + ws)[..|d + ws| - 1] == d + shorter;
      TrimTrailingSkips(d, shorter);
    } else {
      assert d + ws == d;
    }
  }

  /** What `hex(_:)` makes of a string of hex digits: the `hex3`, `hex4`,
      `hex6` or `hex8` colour of its value, chosen by its length, and white for
      any other length. */
  lemma HexOfDigits(d: string)
    requires AllHexDigits(d)
    ensures |d| == 3 ==> HexValue(d) < 0x1000 && Hex(d) == Returns(Hex3(HexValue(d) as bv16))
    ensures |d| == 4 ==> HexValue(d) < 0x1_0000 && Hex(d) == Returns(Hex4(HexValue(d) as bv16))
    ensures |d| == 6 ==> HexValue(d) < 0x100_0000 && Hex(d) == Returns(Hex6(HexValue(d) as bv32))
    ensures |d| == 8 ==> HexValue(d) < 0x1_0000_0000 && Hex(d) == Returns(Hex8(HexValue(d) as bv32))
    ensures |d| !in {3, 4, 6, 8} ==> Hex(d) == Returns(White)
  {
    var low := Lowercased(d);
    HexIsDispatchOfLowercased(d);
    HexValueLowercased(d);
    assert |low| == |d|;
    DispatchOfDigits(low);
  }

  lemma HexIsDispatchOfLowercased(d: string)
    requires AllHexDigits(d)
    ensures Hex(d) == Dispatch(Lowercased(d))
  {
    LowercasedDigits(d);
    TrimOfDigits(d);
    CleanOfPlain(d, Lowercased(d));
  }

  lemma DispatchOfDigits(d: string)
    requires AllHexDigits(d)
    ensures |d| == 3 ==> HexValue(d) < 0x1000 && Dispatch(d) == Returns(Hex3(HexValue(d) as bv16))
    ensures |d| == 4 ==> HexValue(d) < 0x1_0000 && Dispatch(d) == Returns(Hex4(HexValue(d) as bv16))
    ensures |d| == 6 ==> HexValue(d) < 0x100_0000 && Dispatch(d) == Returns(Hex6(HexValue(d) as bv32))
    ensures |d| == 8 ==> HexValue(d) < 0x1_0000_0000 && Dispatch(d) == Returns(Hex8(HexValue(d) as bv32))
    ensures |d| !in {3, 4, 6, 8} ==> Dispatch(d) == Returns(White)
  {
    if |d| == 3 {
      Pow16Values();
      ParseHexDigits(d);
    } else if |d| == 4 {
      Pow16Values();
      ParseHexDigits(d);
    } else if |d| == 6 {
      Pow16Values();
      ParseHexDigits(d);
    } else if |d| == 8 {
      Pow16Values();
      ParseHexDigits(d);
    }
  }

  /** The decorations `hex(_:)` strips: a leading "#", a leading "0x" or "0X",
      surrounding whitespace, and letter case. */
  lemma HexIgnoresDecoration(d: string, before: string, after: string)
    requires AllHexDigits(d) && AllWhitespace(before) && AllWhitespace(after)
    ensures Hex("#" + d) == Hex(d)
    ensures Hex("0x" + d) == Hex(d)
    ensures Hex("0X" + d) == Hex(d)
    ensures Hex(before + d + after) == Hex(d)
    ensures Hex(Uppercased(d)) == Hex(d)
  {
    CleanOfDigits(d, before, after);
  }

  /** A sign is accepted by the parser and counts towards the length. With
      "-" and a nonzero value, the conversion to an unsigned width traps; "-"
      before a zero value gives what "+" gives. */
  lemma HexOfSignedDigits(d: string)
    requires AllHexDigits(d) && |d| + 1 in {3, 4, 6, 8}
    ensures |d| == 2 ==> HexValue(d) < 0x100 && Hex("+" + d) == Returns(Hex3(HexValue(d) as bv16))
    ensures |d| == 3 ==> HexValue(d) < 0x1000 && Hex("+" + d) == Returns(Hex4(HexValue(d) as bv16))
    ensures |d| == 5 ==> HexValue(d) < 0x10_0000 && Hex("+" + d) == Returns(Hex6(HexValue(d) as bv32))
    ensures |d| == 7 ==> HexValue(d) < 0x1000_0000 && Hex("+" + d) == Returns(Hex8(HexValue(d) as bv32))
    ensures HexValue(d) > 0 ==> Hex("-" + d) == Traps
    ensures HexValue(d) == 0 ==> Hex("-" + d) == Hex("+" + d)
  {
    if |d| == 2 {
      HexOfPlus3(d);
    } else if |d| == 3 {
      HexOfPlus4(d);
    } else if |d| == 5 {
      HexOfPlus6(d);
    } else {
      HexOfPlus8(d);
    }
    if HexValue(d) > 0 {
      HexOfMinus(d);
    } else {
      HexOfMinusZero(d);
    }
  }

  lemma HexOfMinusZero(d: string)
    requires AllHexDigits(d) && 0 < |d| <= 8 && HexValue(d) == 0
    ensures Hex("-" + d) == Hex("+" + d)
  {
    HexOfSignPrefixed(d);
    DispatchOfMinusZero(Lowercased(d));
  }

  /** Minus zero parses as zero, so the sign makes no difference. */
  lemma DispatchOfMinusZero(d: string)
    requires AllHexDigits(d) && 0 < |d| <= 8 && HexValue(d) == 0
    ensures Dispatch("-" + d) == Dispatch("+" + d)
  {
    ParseHexDigits(d);
  }

  /** A signed digit string is dispatched with its digits lowercased. */
  lemma HexOfSignPrefixed(d: string)
    requires AllHexDigits(d)
    ensures Hex("+" + d) == Dispatch("+" + Lowercased(d)) && Hex("-" + d) == Dispatch("-" + Lowercased(d))
    ensures AllHexDigits(Lowercased(d)) && |Lowercased(d)| == |d| && HexValue(Lowercased(d)) == HexValue(d)
  {
    HexValueLowercased(d);
    LowercasedDigits(d);
    CleanOfSigned(d, '+');
    CleanOfSigned(d, '-');
  }

  lemma CleanOfSigned(d: string, sign: char)
    requires AllHexDigits(d) && sign in "+-"
    ensures Clean([sign] + d) == [sign] + Lowercased(d)
  {
    var low := Lowercased(d);
    LowercasedDigits(d);
    TrimOfDigits([sign] + d);
    assert Lowercased([sign] + d) == [sign] + low;
    assert ([sign] + low)[..1] != "#";
    assert |[sign] + low| >= 2 ==> ([sign] + low)[..2] != "0x";
  }

  lemma HexOfPlus3(d: string)
    requires AllHexDigits(d) && |d| == 2
    ensures HexValue(d) < 0x100 && Hex("+" + d) == Returns(Hex3(HexValue(d) as bv16))
  {
    HexOfSignPrefixed(d);
    DispatchOfPlus3(Lowercased(d));
  }

  lemma DispatchOfPlus3(d: string)
    requires AllHexDigits(d) && |d| == 2
    ensures HexValue(d) < 0x100 && Dispatch("+" + d) == Returns(Hex3(HexValue(d) as bv16))
  {
    Pow16Values();
    ParseHexDigits(d);
  }

  lemma HexOfPlus4(d: string)
    requires AllHexDigits(d) && |d| == 3
    ensures HexValue(d) < 0x1000 && Hex("+" + d) == Returns(Hex4(HexValue(d) as bv16))
  {
    HexOfSignPrefixed(d);
    DispatchOfPlus4(Lowercased(d));
  }

  lemma DispatchOfPlus4(d: string)
    requires AllHexDigits(d) && |d| == 3
    ensures HexValue(d) < 0x1000 && Dispatch("+" + d) == Returns(Hex4(HexValue(d) as bv16))
  {
    Pow16Values();
    ParseHexDigits(d);
  }

  lemma HexOfPlus6(d: string)
    requires AllHexDigits(d) && |d| == 5
    ensures HexValue(d) < 0x10_0000 && Hex("+" + d) == Returns(Hex6(HexValue(d) as bv32))
  {
    HexOfSignPrefixed(d);
    DispatchOfPlus6(Lowercased(d));
  }

  lemma DispatchOfPlus6(d: string)
    requires AllHexDigits(d) && |d| == 5
    ensures HexValue(d) < 0x10_0000 && Dispatch("+" + d) == Returns(Hex6(HexValue(d) as bv32))
  {
    Pow16Values();
    ParseHexDigits(d);
  }

  lemma HexOfPlus8(d: string)
    requires AllHexDigits(d) && |d| == 7
    ensures HexValue(d) < 0x1000_0000 && Hex("+" + d) == Returns(Hex8(HexValue(d) as bv32))
  {
    HexOfSignPrefixed(d);
    DispatchOfPlus8(Lowercased(d));
  }

  lemma DispatchOfPlus8(d: string)
    requires AllHexDigits(d) && |d| == 7
    ensures HexValue(d) < 0x1000_0000 && Dispatch("+" + d) == Returns(Hex8(HexValue(d) as bv32))
  {
    Pow16Values();
    ParseHexDigits(d);
  }

  lemma HexOfMinus(d: string)
    requires AllHexDigits(d) && |d| + 1 in {3, 4, 6, 8} && HexValue(d) > 0
    ensures Hex("-" + d) == Traps
  {
    HexOfSignPrefixed(d);
    DispatchOfMinus(Lowercased(d));
  }

  lemma DispatchOfMinus(d: string)
    requires AllHexDigits(d) && |d| + 1 in {3, 4, 6, 8} && HexValue(d) > 0
    ensures Dispatch("-" + d) == Traps
  {
    Pow16Values();
    ParseHexDigits(d);
  }

  /** Every '#' goes, not only the leading one. */
  lemma HexRemovesInnerHashes()
    ensures Hex("#1#2#3") == Hex("123")
    ensures Hex("1#2#3") == Returns(White)
  {
    CleanOfInnerHashes();
    assert ParseHex("1#2#3").None? by {
      assert !AllHexDigits("1#2#3") by { assert !IsHexDigit("1#2#3"[1]); }
    }
  }

  lemma CleanOfInnerHashes()
    ensures Clean("#1#2#3") == "123"
    ensures Clean("1#2#3") == "1#2#3"
    ensures Clean("123") == "123"
  {
    var s := "#1#2#3";
    TrimOfDigits(s);
    assert Lowercased(s) == s;
    assert s[..1] == "#";
    RemoveHashes();
    var t := "1#2#3";
    TrimOfDigits(t);
    assert Lowercased(t) == t;
    assert t[..1] != "#" && t[..2] != "0x";
    var u := "123";
    TrimOfDigits(u);
    assert Lowercased(u) == u;
    assert u[..1] != "#" && u[..2] != "0x";
  }

  lemma RemoveHashes()
    ensures RemoveAll("#1#2#3", "#") == "123"
  {
    var s := "#1#2#3";
    assert s[..1] == "#" && s[1..] == "1#2#3";
    assert "1#2#3"[..1][0] == '1' && "1#2#3"[1..] == "#2#3";
    assert "#2#3"[..1] == "#" && "#2#3"[1..] == "2#3";
    assert "2#3"[..1][0] == '2' && "2#3"[1..] == "#3";
    assert "#3"[..1] == "#" && "#3"[1..] == "3";
    assert "3"[..1][0] == '3' && "3"[1..] == "";
  }

  // ---------------------------------------------------------------------------
  // Flat UI palette
  // ---------------------------------------------------------------------------

  datatype FlatUI =
    | Turquoise | GreenSea | Emerald | Nephritis | PeterRiver | BelizeHole
    | Amethyst | Wisteria | WetAsphalt | MidnightBlue | SunFlower | FlatOrange
    | Carrot | Pumkin | Alizarin | Pomegranate | Clouds | Silver | Asbestos | Concerte

  /** The literal each palette entry passes to `hex6`. */
  function Code(entry: FlatUI): bv32
  {
    match entry
    case Turquoise => 0x1abc9c
    case GreenSea => 0x16a085
    case Emerald => 0x2ecc71
    case Nephritis => 0x27ae60
    case PeterRiver => 0x3498db
    case BelizeHole => 0x2980b9
    case Amethyst => 0x9b59b6
    case Wisteria => 0x8e44ad
    case WetAsphalt => 0x34495e
    case MidnightBlue => 0x2c3e50
    case SunFlower => 0xf1c40f
    case FlatOrange => 0xf39c12
    case Carrot => 0xe67e22
    case Pumkin => 0xd35400
    case Alizarin => 0xe74c3c
    case Pomegranate => 0xc0392b
    case Clouds => 0xecf0f1
    case Silver => 0xbdc3c7
    case Asbestos => 0x7f8c8d
    case Concerte => 0x95a5a6
  }

  /** The palette colour, `.hex6(code)`. */
  function FlatUIColor(entry: FlatUI): Color
  {
    Hex6(Code(entry))
  }

  /** The six digits of the "#RRGGBB" string in each entry's doc comment. */
  function DocumentedDigits(entry: FlatUI): string
  {
    match entry
    case Turquoise => "1ABC9C"
    case GreenSea => "16A085"
    case Emerald => "2ECC71"
    case Nephritis => "27AE60"
    case PeterRiver => "3498DB"
    case BelizeHole => "2980B9"
    case Amethyst => "9B59B6"
    case Wisteria => "8E44AD"
    case WetAsphalt => "34495E"
    case MidnightBlue => "2C3E50"
    case SunFlower => "F1C40F"
    case FlatOrange => "F39C12"
    case Carrot => "E67E22"
    case Pumkin => "D35400"
    case Alizarin => "E74C3C"
    case Pomegranate => "C0392B"
    case Clouds => "ECF0F1"
    case Silver => "BDC3C7"
    case Asbestos => "7F8C8D"
    case Concerte => "95A5A6"
  }

  /** Each palette entry is the colour that `hex(_:)` makes of the "#RRGGBB"
      string its doc comment gives. */
  lemma FlatUIMatchesDocumentation(entry: FlatUI)
    ensures Hex("#" + DocumentedDigits(entry)) == Returns(FlatUIColor(entry))
  {
    var d := DocumentedDigits(entry);
    DocumentedDigitsDenoteCode(entry);
    HexValueOfSix(d);
    HexIgnoresDecoration(d, [], []);
    HexOfSixDigits(d);
    CodeBelow(entry);
    Bv32AsInt(Code(entry));
  }

  /** The documented digits are six hex digits denoting the code. */
  lemma DocumentedDigitsDenoteCode(entry: FlatUI)
    ensures |DocumentedDigits(entry)| == 6 && AllHexDigits(DocumentedDigits(entry))
    ensures SixDigitValue(DocumentedDigits(entry)) == Code(entry) as int
  {
    if entry in {Turquoise, GreenSea, Emerald, Nephritis, PeterRiver, BelizeHole} {
      DocumentedGreensAndBlues(entry);
    } else if entry in {Amethyst, Wisteria, WetAsphalt, MidnightBlue} {
      DocumentedPurplesAndNavies(entry);
    } else if entry in {SunFlower, FlatOrange, Carrot, Pumkin, Alizarin, Pomegranate} {
      DocumentedWarmColours(entry);
    } else {
      DocumentedGreys(entry);
    }
  }

  /** `DocumentedDigitsDenoteCode` for the greens and blues. */
  lemma DocumentedGreensAndBlues(entry: FlatUI)
    requires entry in {Turquoise, GreenSea, Emerald, Nephritis, PeterRiver, BelizeHole}
    ensures |DocumentedDigits(entry)| == 6 && AllHexDigits(DocumentedDigits(entry))
    ensures SixDigitValue(DocumentedDigits(entry)) == Code(entry) as int
  {
  }

  /** `DocumentedDigitsDenoteCode` for the purples and the dark blues. */
  lemma DocumentedPurplesAndNavies(entry: FlatUI)
    requires entry in {Amethyst, Wisteria, WetAsphalt, MidnightBlue}
    ensures |DocumentedDigits(entry)| == 6 && AllHexDigits(DocumentedDigits(entry))
    ensures SixDigitValue(DocumentedDigits(entry)) == Code(entry) as int
  {
  }

  /** `DocumentedDigitsDenoteCode` for the yellows, oranges and reds. */
  lemma DocumentedWarmColours(entry: FlatUI)
    requires entry in {SunFlower, FlatOrange, Carrot, Pumkin, Alizarin, Pomegranate}
    ensures |DocumentedDigits(entry)| == 6 && AllHexDigits(DocumentedDigits(entry))
    ensures SixDigitValue(DocumentedDigits(entry)) == Code(entry) as int
  {
  }

  /** `DocumentedDigitsDenoteCode` for the greys. */
  lemma DocumentedGreys(entry: FlatUI)
    requires entry in {Clouds, Silver, Asbestos, Concerte}
    ensures |DocumentedDigits(entry)| == 6 && AllHexDigits(DocumentedDigits(entry))
    ensures SixDigitValue(DocumentedDigits(entry)) == Code(entry) as int
  {
  }

  /** The value of six hex digits, written out position by position. */
  function SixDigitValue(d: string): nat
    requires |d| == 6 && AllHexDigits(d)
  {
    DigitValue(d[0]) * 0x10_0000 + DigitValue(d[1]) * 0x1_0000 + DigitValue(d[2]) * 0x1000
    + DigitValue(d[3]) * 0x100 + DigitValue(d[4]) * 0x10 + DigitValue(d[5])
  }

  lemma HexValueOfSix(d: string)
    requires |d| == 6 && AllHexDigits(d)
    ensures HexValue(d) == SixDigitValue(d)
  {
    assert d[..5][..4] == d[..4] && d[..4][..3] == d[..3] && d[..3][..2] == d[..2] && d[..2][..1] == d[..1];
    assert d[..1][..0] == [];
    assert HexValue(d[..1]) == DigitValue(d[0]);
    assert HexValue(d[..2]) == 16 * DigitValue(d[0]) + DigitValue(d[1]);
    assert HexValue(d[..3]) == 16 * HexValue(d[..2]) + DigitValue(d[2]);
    assert HexValue(d[..4]) == 16 * HexValue(d[..3]) + DigitValue(d[3]);
    assert HexValue(d[..5]) == 16 * HexValue(d[..4]) + DigitValue(d[4]);
  }

  lemma CodeBelow(entry: FlatUI)
    ensures Code(entry) < 0x100_0000
  {
  }

  /** Turquoise, documented as "#1ABC9C", has channels 26, 188, 156 and is opaque. */
  lemma FlatUITurquoise()
    ensures FlatUIColor(Turquoise) == Channels(26, 188, 156, 255, 255)
  {
  }

  /** The "#RRGGBB" form of a 24-bit value, in uppercase, gives `hex6` of that value. */
  lemma HexOfDocumented6(v: bv32)
    requires v < 0x100_0000
    ensures Hex("#" + Uppercased(HexString(v as int, 6))) == Returns(Hex6(v))
  {
    Bv32AsInt(v);
    HexOfFormatted6(v as int);
    HexOfHashUppercased(HexString(v as int, 6));
  }

  lemma Bv32AsInt(v: bv32)
    requires v < 0x100_0000
    ensures v as int < 0x100_0000 && (v as int) as bv32 == v
  {
  }

  lemma HexOfHashUppercased(d: string)
    requires AllHexDigits(d)
    ensures Hex("#" + Uppercased(d)) == Hex(d)
  {
    UppercasedDigits(d);
    HexIgnoresDecoration(Uppercased(d), [], []);
    HexIgnoresDecoration(d, [], []);
  }

  // ---------------------------------------------------------------------------
  // Formatting, the inverse of parsing
  // ---------------------------------------------------------------------------

  /** The lowercase digit for a value below sixteen. */
  function HexDigit(v: nat): (ch: char)
    requires v < 16
    ensures IsHexDigit(ch) && DigitValue(ch) == v
  {
    if v < 10 then ('0' as int + v) as char else ('a' as int + v - 10) as char
  }

  /** The `n` low-order hex digits of `v`, most significant first. */
  function HexString(v: nat, n: nat): (s: string)
    ensures |s| == n && AllHexDigits(s)
    decreases n
  {
    if n == 0 then [] else HexString(v / 16, n - 1) + [HexDigit(v % 16)]
  }

  /** Parsing the digits of `v` gives `v` back, reduced modulo 16^n. */
  lemma {:induction false} HexValueOfHexString(v: nat, n: nat)
    ensures HexValue(HexString(v, n)) == v % Pow16(n)
    decreases n
  {
    if n > 0 {
      var s := HexString(v, n);
      assert s[..n - 1] == HexString(v / 16, n - 1);
      HexValueOfHexString(v / 16, n - 1);
      ModOfProduct(v, Pow16(n - 1));
    }
  }

  /** v mod 16p == 16 ((v / 16) mod p) + v mod 16. */
  lemma ModOfProduct(v: nat, p: nat)
    requires p >= 1
    ensures v % (16 * p) == 16 * ((v / 16) % p) + v % 16
  {
    var q := (v / 16) / p;
    var r := (v / 16) % p;
    assert v == 16 * (v / 16) + v % 16;
    assert v / 16 == q * p + r;
    assert 16 * (q * p + r) == (16 * p) * q + 16 * r;
    assert 16 * r <= 16 * (p - 1);
    ModUnique(v, 16 * p, q, 16 * r + v % 16);
  }

  /** The remainder is the only one below the divisor. */
  lemma ModUnique(v: int, k: int, a: int, b: int)
    requires k > 0 && 0 <= b < k && v == a * k + b
    ensures v % k == b
  {
    var q := v / k;
    var d := q - a;
    assert v == q * k + v % k;
    assert q * k - a * k == d * k;
    assert d * k == b - v % k;
    if d > 0 {
      assert false;
    } else if d < 0 {
      assert false;
    }
  }

  /** `hex(_:)` of the six formatted digits of a value is `hex6` of that value. */
  lemma HexOfFormatted6(v: nat)
    requires v < 0x100_0000
    ensures Hex(HexString(v, 6)) == Returns(Hex6(v as bv32))
  {
    var d := HexString(v, 6);
    HexValueOfHexString(v, 6);
    Pow16Values();
    ModUnique(v, 0x100_0000, 0, v);
    assert HexValue(d) == v;
    HexOfSixDigits(d);
  }

  lemma HexOfSixDigits(d: string)
    requires AllHexDigits(d) && |d| == 6
    ensures Hex(d) == Returns(Hex6(HexValue(d) as bv32))
  {
    HexOfDigits(d);
  }
}
