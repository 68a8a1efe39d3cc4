/** Conversion of HSL colours to RGB, over the reals up to the final rounding. */
module Hsl {
  datatype Rgb = Rgb(r: real, g: real, b: real)

  /** The sign-following `%` of the source. */
  function Rem(x: real, m: real): real
    requires m > 0.0
  {
    if x >= 0.0 then x - m * (x / m).Floor as real else x + m * (-x / m).Floor as real
  }

  /** The hue in degrees, brought to one turn. */
  function OneTurn(h: real): real {
    Rem(Rem(h, 360.0) + 360.0, 360.0)
  }

  function HueToRgb(p: real, q: real, t0: real): real {
    var t1 := if t0 < 0.0 then t0 + 1.0 else t0;
    var t := if t1 > 1.0 then t1 - 1.0 else t1;
    if t < 1.0 / 6.0 then p + (q - p) * 6.0 * t
    else if t < 1.0 / 2.0 then q
    else if t < 2.0 / 3.0 then p + (q - p) * (2.0 / 3.0 - t) * 6.0
    else p
  }

  function Upper(s: real, l: real): real {
    if l < 0.5 then l * (1.0 + s) else l + s - l * s
  }

  /** The channels before they are clamped and rounded. */
  function Channels(h: real, s: real, l: real): Rgb {
    if s == 0.0 then Rgb(l, l, l) else
      var t := OneTurn(h) / 360.0;
      var q := Upper(s, l);
      var p := 2.0 * l - q;
      Rgb(HueToRgb(p, q, t + 1.0 / 3.0), HueToRgb(p, q, t), HueToRgb(p, q, t - 1.0 / 3.0))
  }

  function Max(x: real, y: real): real {
    if x < y then y else x
  }

  function Min(x: real, y: real): real {
    if x < y then x else y
  }

  function Clamp(x: real): real {
    Min(1.0, Max(0.0, x))
  }

  /** `Math.round` */
  function Round(x: real): int {
    (x + 0.5).Floor
  }

  function ToByte(x: real): (n: int)
    ensures 0 <= n <= 255
  {
    Round(Clamp(x) * 255.0)
  }

  function HslToRgb(h: real, s: real, l: real): (int, int, int) {
    var c := Channels(h, s, l);
    (ToByte(c.r), ToByte(c.g), ToByte(c.b))
  }

  // ---------------------------------------------------------------- the turn

  lemma RemRange(x: real) returns (k: int)
    ensures x == Rem(x, 360.0) + 360.0 * k as real
    ensures if x >= 0.0 then 0.0 <= Rem(x, 360.0) < 360.0 else -360.0 < Rem(x, 360.0) <= 0.0
  {
    if x >= 0.0 {
      var f := (x / 360.0).Floor;
      assert f as real <= x / 360.0 < f as real + 1.0;
      k := f;
    } else {
      var f := (-x / 360.0).Floor;
      assert f as real <= -x / 360.0 < f as real + 1.0;
      k := -f;
    }
  }

  /** The hue is brought to [0, 360) by whole turns, negative hues too. */
  lemma OneTurnIsHue(h: real) returns (k: int)
    ensures 0.0 <= OneTurn(h) < 360.0
    ensures h == OneTurn(h) + 360.0 * k as real
  {
    hide Rem;
    var i := RemRange(h);
    var j := RemRange(Rem(h, 360.0) + 360.0);
    k := i + j - 1;
  }

  /** There is only one such hue. */
  lemma OneTurnIsUnique(h: real, x: real, k: int)
    requires 0.0 <= x < 360.0 && h == x + 360.0 * k as real
    ensures OneTurn(h) == x
  {
    hide OneTurn;
    var j := OneTurnIsHue(h);
    assert (j - k) as real * 360.0 == x - OneTurn(h);
    assert -1 < j - k < 1;
  }

  /** Whole turns do not change the colour. */
  lemma WholeTurns(h: real, s: real, l: real, n: int)
    ensures Channels(h + 360.0 * n as real, s, l) == Channels(h, s, l)
  {
    hide OneTurn, HueToRgb, Upper;
    var k := OneTurnIsHue(h);
    OneTurnIsUnique(h + 360.0 * n as real, OneTurn(h), k + n);
  }

  // ---------------------------------------------------------------- the channels

  /** How far a channel is from the lowest to the highest value, over the turn. */
  function Wave(t0: real): (w: real)
    requires -1.0 / 3.0 <= t0 < 4.0 / 3.0
    ensures 0.0 <= w <= 1.0
  {
    var t1 := if t0 < 0.0 then t0 + 1.0 else t0;
    var t := if t1 > 1.0 then t1 - 1.0 else t1;
    if t < 1.0 / 6.0 then 6.0 * t else if t < 1.0 / 2.0 then 1.0 else if t < 2.0 / 3.0 then 6.0 * (2.0 / 3.0 - t) else 0.0
  }

  lemma HueIsWave(p: real, q: real, t: real)
    requires -1.0 / 3.0 <= t < 4.0 / 3.0
    ensures HueToRgb(p, q, t) == p + (q - p) * Wave(t)
  {
  }

  /** Half the distance of the highest channel from the lowest. */
  function Spread(s: real, l: real): real {
    s * Min(l, 1.0 - l)
  }

  lemma UpperIsSpread(s: real, l: real)
    ensures Upper(s, l) == l + Spread(s, l)
  {
    if l < 0.5 {
      assert l * (1.0 + s) == l + s * l;
    } else {
      assert l + s - l * s == l + s * (1.0 - l);
    }
  }

  predicate Unit(x: real) {
    0.0 <= x <= 1.0
  }

  lemma SpreadRange(s: real, l: real)
    requires Unit(s) && Unit(l)
    ensures 0.0 <= Spread(s, l) <= l && l + Spread(s, l) <= 1.0
    ensures s == 0.0 ==> Spread(s, l) == 0.0
    ensures s > 0.0 && 0.0 < l < 1.0 ==> Spread(s, l) > 0.0
  {
    var m := Min(l, 1.0 - l);
    assert 0.0 <= m <= 0.5 && m <= l && m <= 1.0 - l;
    assert 0.0 <= s * m;
    assert 0.0 <= (1.0 - s) * m;
    assert (1.0 - s) * m == m - s * m;
    assert s > 0.0 && m > 0.0 ==> s * m > 0.0;
  }

  function Waves(t: real): Rgb
    requires 0.0 <= t < 1.0
  {
    Rgb(Wave(t + 1.0 / 3.0), Wave(t), Wave(t - 1.0 / 3.0))
  }

  function Blend(x: real, d: real, w: real): real {
    x + d * w
  }

  /** Each channel is a blend of the lowest and the highest value. */
  lemma ChannelsAreBlends(h: real, s: real, l: real)
    ensures 0.0 <= OneTurn(h) / 360.0 < 1.0
    ensures var a, w := Spread(s, l), Waves(OneTurn(h) / 360.0);
            Channels(h, s, l) == Rgb(Blend(l - a, 2.0 * a, w.r), Blend(l - a, 2.0 * a, w.g), Blend(l - a, 2.0 * a, w.b))
  {
    hide OneTurn, HueToRgb, Upper, Wave;
    var _ := OneTurnIsHue(h);
    var t := OneTurn(h) / 360.0;
    var a := Spread(s, l);
    UpperIsSpread(s, l);
    if s == 0.0 {
      assert a == 0.0;
    } else {
      HueIsWave(l - a, l + a, t + 1.0 / 3.0);
      HueIsWave(l - a, l + a, t);
      HueIsWave(l - a, l + a, t - 1.0 / 3.0);
    }
  }

  lemma BlendRange(x: real, d: real, w: real)
    requires d >= 0.0 && Unit(w)
    ensures x <= Blend(x, d, w) <= x + d
    ensures w == 0.0 ==> Blend(x, d, w) == x
    ensures w == 1.0 ==> Blend(x, d, w) == x + d
  {
    assert 0.0 <= d * w;
    assert d * w <= d * 1.0;
  }

  /** At each hue one channel is highest and one is lowest. */
  lemma WavesReachBoth(t: real)
    requires 0.0 <= t < 1.0
    ensures var w := Waves(t); 1.0 in [w.r, w.g, w.b] && 0.0 in [w.r, w.g, w.b]
  {
    var w := Waves(t);
    assert w.r == 1.0 || w.g == 1.0 || w.b == 1.0;
    assert w.r == 0.0 || w.g == 0.0 || w.b == 0.0;
    assert [w.r, w.g, w.b][0] == w.r && [w.r, w.g, w.b][1] == w.g && [w.r, w.g, w.b][2] == w.b;
  }

  function Highest(c: Rgb): real {
    Max(c.r, Max(c.g, c.b))
  }

  function Lowest(c: Rgb): real {
    Min(c.r, Min(c.g, c.b))
  }

  /** For saturation and lightness in [0, 1] and every hue, the highest channel is the upper value
      and the lowest its mirror image at `l`, by the spread `a` each, and both are in [0, 1]. */
  lemma ExtremesAreExact(h: real, s: real, l: real)
    requires Unit(s) && Unit(l)
    ensures var c, a := Channels(h, s, l), Spread(s, l);
            && Highest(c) == Upper(s, l) == l + a && Lowest(c) == 2.0 * l - Upper(s, l) == l - a
            && 0.0 <= Lowest(c) <= Highest(c) <= 1.0
  {
    hide Wave, Blend, Channels, Spread, OneTurn, Upper;
    UpperIsSpread(s, l);
    ChannelsAreBlends(h, s, l);
    SpreadRange(s, l);
    var a, w := Spread(s, l), Waves(OneTurn(h) / 360.0);
    WavesReachBoth(OneTurn(h) / 360.0);
    BlendRange(l - a, 2.0 * a, w.r);
    BlendRange(l - a, 2.0 * a, w.g);
    BlendRange(l - a, 2.0 * a, w.b);
  }

  /** The clamp changes nothing, and the lightness is halfway between the extremes. */
  lemma ClampIsIdentity(h: real, s: real, l: real)
    requires Unit(s) && Unit(l)
    ensures var c := Channels(h, s, l);
            && Clamp(c.r) == c.r && Clamp(c.g) == c.g && Clamp(c.b) == c.b
            && (Highest(c) + Lowest(c)) / 2.0 == l
  {
    hide Channels, Spread;
    ExtremesAreExact(h, s, l);
  }

  /** A third of a turn rotates the channels. */
  lemma ThirdTurnRotates(h: real, s: real, l: real)
    ensures var c := Channels(h, s, l); Channels(h + 120.0, s, l) == Rgb(c.b, c.r, c.g)
  {
    hide Wave, Channels, OneTurn, Blend;
    var k := OneTurnIsHue(h);
    var x := OneTurn(h);
    var y := if x < 240.0 then x + 120.0 else x - 240.0;
    OneTurnIsUnique(h + 120.0, y, if x < 240.0 then k else k + 1);
    ChannelsAreBlends(h, s, l);
    ChannelsAreBlends(h + 120.0, s, l);
    WavesRotate(x / 360.0);
    assert y / 360.0 == if x / 360.0 < 2.0 / 3.0 then x / 360.0 + 1.0 / 3.0 else x / 360.0 - 2.0 / 3.0;
  }

  lemma WavesRotate(t: real)
    requires 0.0 <= t < 1.0
    ensures var u := if t < 2.0 / 3.0 then t + 1.0 / 3.0 else t - 2.0 / 3.0;
            Waves(u) == Rgb(Waves(t).b, Waves(t).r, Waves(t).g)
  {
  }

  // ---------------------------------------------------------------- the closed form

  /** The closed form of CSS Color Module Level 4 for the same conversion; `n` is 0 for red, 8 for
      green and 4 for blue. */
  function Css(n: real, h: real, s: real, l: real): real {
    var k := Rem(n + OneTurn(h) / 30.0, 12.0);
    l - s * Min(l, 1.0 - l) * Max(-1.0, Min(k - 3.0, Min(9.0 - k, 1.0)))
  }

  /** The code computes that closed form, at every hue, saturation and lightness. */
  lemma ClosedForm(h: real, s: real, l: real)
    ensures Channels(h, s, l) == Rgb(Css(0.0, h, s, l), Css(8.0, h, s, l), Css(4.0, h, s, l))
  {
    hide Wave, Channels, OneTurn, Css;
    ChannelsAreBlends(h, s, l);
    var _ := OneTurnIsHue(h);
    var x := OneTurn(h);
    var t := x / 360.0;
    CssIsBlend(0.0, h, s, l, t + 1.0 / 3.0);
    CssIsBlend(8.0, h, s, l, t);
    CssIsBlend(4.0, h, s, l, t - 1.0 / 3.0);
  }

  lemma CssIsBlend(n: real, h: real, s: real, l: real, t: real)
    requires 0.0 <= OneTurn(h) < 360.0
    requires n == 0.0 || n == 8.0 || n == 4.0
    requires t == OneTurn(h) / 360.0 + if n == 0.0 then 1.0 / 3.0 else if n == 8.0 then 0.0 else -1.0 / 3.0
    ensures -1.0 / 3.0 <= t < 4.0 / 3.0
    ensures Css(n, h, s, l) == Blend(l - Spread(s, l), 2.0 * Spread(s, l), Wave(t))
  {
    hide OneTurn, Rem, Wave, Max, Min;
    var k := Rem(n + OneTurn(h) / 30.0, 12.0);
    var m := Max(-1.0, Min(k - 3.0, Min(9.0 - k, 1.0)));
    TentIsWave(n, OneTurn(h), t);
    var a, w := Spread(s, l), Wave(t);
    assert Css(n, h, s, l) == l - a * m;
    Distribute(l, a, w, m);
  }

  lemma Distribute(l: real, a: real, w: real, m: real)
    requires m == 1.0 - 2.0 * w
    ensures Blend(l - a, 2.0 * a, w) == l - a * m
  {
    assert a * m == a * (1.0 - 2.0 * w);
  }

  lemma TentIsWave(n: real, x: real, t: real)
    requires 0.0 <= x < 360.0
    requires n == 0.0 || n == 8.0 || n == 4.0
    requires t == x / 360.0 + if n == 0.0 then 1.0 / 3.0 else if n == 8.0 then 0.0 else -1.0 / 3.0
    ensures var k := Rem(n + x / 30.0, 12.0);
            Max(-1.0, Min(k - 3.0, Min(9.0 - k, 1.0))) == 1.0 - 2.0 * Wave(t)
  {
    var y := n + x / 30.0;
    assert (y / 12.0).Floor == if y < 12.0 then 0 else 1;
    assert Rem(y, 12.0) == if y < 12.0 then y else y - 12.0;
  }

  // ---------------------------------------------------------------- the way back

  function Lightness(c: Rgb): real {
    (Highest(c) + Lowest(c)) / 2.0
  }

  /** For colours that are not grey. */
  function Saturation(c: Rgb): real
    requires Lightness(c) != 0.0 && Lightness(c) != 1.0
  {
    (Highest(c) - Lightness(c)) / Min(Lightness(c), 1.0 - Lightness(c))
  }

  /** For colours that are not grey, in degrees. */
  function Hue(c: Rgb): real
    requires Highest(c) != Lowest(c)
  {
    var d := Highest(c) - Lowest(c);
    if Highest(c) == c.r then
      var x := 60.0 * ((c.g - c.b) / d);
      if x < 0.0 then x + 360.0 else x
    else if Highest(c) == c.g then 60.0 * ((c.b - c.r) / d) + 120.0
    else 60.0 * ((c.r - c.g) / d) + 240.0
  }

  /** Nothing is lost: hue, saturation and lightness can be read off the channels, for every colour
      that is not grey. */
  lemma HslComesBack(h: real, s: real, l: real)
    requires 0.0 < s <= 1.0 && 0.0 < l < 1.0
    ensures var c := Channels(h, s, l);
            && Lightness(c) == l
            && Saturation(c) == s
            && Highest(c) != Lowest(c) && Hue(c) == OneTurn(h)
  {
    hide Wave, Channels, OneTurn, Blend;
    var c, a := Channels(h, s, l), Spread(s, l);
    ExtremesAreExact(h, s, l);
    SpreadRange(s, l);
    assert a / Min(l, 1.0 - l) == s;
    var _ := OneTurnIsHue(h);
    var t := OneTurn(h) / 360.0;
    ChannelsAreBlends(h, s, l);
    var w := Waves(t);
    HueOfWaves(t);
    HueOfBlends(c, w, l - a, 2.0 * a);
  }

  lemma HueOfWaves(t: real)
    requires 0.0 <= t < 1.0
    ensures var w := Waves(t); Highest(w) == 1.0 && Lowest(w) == 0.0 && Hue(w) == 360.0 * t
  {
    WavesReachBoth(t);
  }

  lemma BlendDifference(x: real, d: real, v: real, w: real)
    requires d > 0.0
    ensures (Blend(x, d, v) - Blend(x, d, w)) / d == v - w
    ensures v < w <==> Blend(x, d, v) < Blend(x, d, w)
  {
    assert d * v - d * w == d * (v - w);
    assert (d * (v - w)) / d == v - w;
    assert v < w ==> d * v < d * w;
    assert v >= w ==> d * v >= d * w;
  }

  /** The hue does not depend on where and how far apart the extremes are. */
  lemma HueOfBlends(c: Rgb, w: Rgb, x: real, d: real)
    requires d > 0.0 && Highest(w) == 1.0 && Lowest(w) == 0.0
    requires c == Rgb(Blend(x, d, w.r), Blend(x, d, w.g), Blend(x, d, w.b))
    ensures Highest(c) != Lowest(c) && Hue(c) == Hue(w)
  {
    BlendedExtremes(c, w, x, d);
    BlendDifference(x, d, w.r, w.g);
    BlendDifference(x, d, w.g, w.b);
    BlendDifference(x, d, w.b, w.r);
    hide Blend, Highest, Lowest;
  }

  /** The highest channel stays the highest, and so the lowest. */
  lemma BlendedExtremes(c: Rgb, w: Rgb, x: real, d: real)
    requires d > 0.0 && Highest(w) == 1.0 && Lowest(w) == 0.0
    requires c == Rgb(Blend(x, d, w.r), Blend(x, d, w.g), Blend(x, d, w.b))
    ensures Highest(c) == x + d && Lowest(c) == x
    ensures (Highest(c) == c.r <==> w.r == 1.0) && (Highest(c) == c.g <==> w.g == 1.0)
  {
    BlendBounds(x, d, w.r);
    BlendBounds(x, d, w.g);
    BlendBounds(x, d, w.b);
    hide Blend;
  }

  lemma BlendBounds(x: real, d: real, w: real)
    requires d > 0.0 && Unit(w)
    ensures x <= Blend(x, d, w) <= x + d
    ensures Blend(x, d, w) == x + d <==> w == 1.0
    ensures w == 0.0 ==> Blend(x, d, w) == x
  {
    BlendRange(x, d, w);
    assert d - d * w == d * (1.0 - w);
    assert w < 1.0 ==> d * (1.0 - w) > 0.0;
  }

  // ---------------------------------------------------------------- the bytes

  /** A placeholder has one channel at 224, one at 82, and none outside of them, at every hue. */
  lemma PlaceholderColour(h: real)
    ensures var (r, g, b) := HslToRgb(h, 0.7, 0.6);
            && 82 <= r <= 224 && 82 <= g <= 224 && 82 <= b <= 224
            && (r == 224 || g == 224 || b == 224) && (r == 82 || g == 82 || b == 82)
  {
    hide Channels, Round;
    var c := Channels(h, 0.7, 0.6);
    ExtremesAreExact(h, 0.7, 0.6);
    assert Highest(c) == 0.88 && Lowest(c) == 0.32;
    ClampIsIdentity(h, 0.7, 0.6);
    PlaceholderBytes(c.r);
    PlaceholderBytes(c.g);
    PlaceholderBytes(c.b);
  }

  lemma PlaceholderBytes(x: real)
    requires 0.32 <= x <= 0.88
    ensures 82 <= ToByte(x) <= 224
    ensures x == 0.32 ==> ToByte(x) == 82
    ensures x == 0.88 ==> ToByte(x) == 224
  {
    assert Clamp(x) == x;
    assert 82.0 <= 0.32 * 255.0 + 0.5;
    assert x * 255.0 + 0.5 < 225.0;
  }

  /** Each byte, red first, then green, then blue, is the nearest to its channel. */
  lemma BytesAreChannels(h: real, s: real, l: real)
    requires Unit(s) && Unit(l)
    ensures var c, (r, g, b) := Channels(h, s, l), HslToRgb(h, s, l);
            IsNearest(r, 255.0 * c.r) && IsNearest(g, 255.0 * c.g) && IsNearest(b, 255.0 * c.b)
  {
    ClampIsIdentity(h, s, l);
    hide Channels, Clamp, Highest, Lowest;
  }

  predicate IsNearest(n: int, x: real) {
    n as real - 0.5 <= x < n as real + 0.5
  }

  /** Pure red, green and blue are where they should be. */
  lemma PrimaryColours()
    ensures HslToRgb(0.0, 1.0, 0.5) == (255, 0, 0)
    ensures HslToRgb(120.0, 1.0, 0.5) == (0, 255, 0)
    ensures HslToRgb(240.0, 1.0, 0.5) == (0, 0, 255)
  {
    OneTurnIsUnique(0.0, 0.0, 0);
    OneTurnIsUnique(120.0, 120.0, 0);
    OneTurnIsUnique(240.0, 240.0, 0);
    hide OneTurn;
    assert Channels(0.0, 1.0, 0.5) == Rgb(1.0, 0.0, 0.0);
    assert Channels(120.0, 1.0, 0.5) == Rgb(0.0, 1.0, 0.0);
    assert Channels(240.0, 1.0, 0.5) == Rgb(0.0, 0.0, 1.0);
  }
}
