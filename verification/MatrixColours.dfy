/** What a receiver makes of a pixel matrix's channels: which pixel and which hue
    each one is, and along which way the string runs. */
module MatrixColours {
  import opened Bytes
  import opened Wiring
  import opened PixelMatrix
  import Reals

  // ---- hues --------------------------------------------------------------

  /** The order of the hues on the wire, letter by letter. */
  function Letters(order: ColorOrder): (s: string)
    ensures |s| == 3
  {
    match order
    case RGB => "RGB"
    case GRB => "GRB"
    case BRG => "BRG"
    case RBG => "RBG"
    case GBR => "GBR"
    case BGR => "BGR"
  }

  function Amount(c: Rgb, hue: char): real {
    if hue == 'R' then c.r else if hue == 'G' then c.g else c.b
  }

  /** The byte nearest to 255 times the level, held within a byte. */
  predicate ShowsAmount(b: byte, level: real) {
    if level <= 0.0 then b == 0
    else if level >= 1.0 then b == 255
    else -0.5 <= b as real - 255.0 * level <= 0.5
  }

  lemma AmountShown(v: real)
    ensures ShowsAmount(ToByte(v), v)
  {
    var n := Reals.Round(v * 255.0);
    if v <= 0.0 { assert v * 255.0 <= 0.0; }
    if v >= 1.0 { assert v * 255.0 >= 255.0; }
  }

  lemma ComponentIs(c: Rgb, order: ColorOrder, k: nat)
    requires k < 3
    ensures Component(c, order, k) == ToByte(Amount(c, Letters(order)[k]))
  {
  }

  lemma ProductShown(level: real, brightness: real)
    ensures ShowsAmount(ToByte(level * brightness), brightness * level)
  {
    AmountShown(level * brightness);
  }

  /** The byte shows that hue of the colour, at that brightness. */
  predicate ShowsHue(b: byte, c: Rgb, hue: char, brightness: real) {
    ShowsAmount(b, brightness * Amount(c, hue))
  }

  lemma DimmedShown(c: Rgb, hue: char, brightness: real)
    ensures ShowsHue(ToByte(Amount(Dimmed(c, brightness), hue)), c, hue, brightness)
  {
    ProductShown(Amount(c, hue), brightness);
    assert Amount(Dimmed(c, brightness), hue) == Amount(c, hue) * brightness;
  }

  /** Component `k` of a pixel shows the hue of that letter, times the brightness. */
  lemma HueShown(c: Rgb, brightness: real, order: ColorOrder, k: nat)
    requires k < 3
    ensures ShowsHue(Component(Dimmed(c, brightness), order, k), c, Letters(order)[k], brightness)
  {
    ComponentIs(Dimmed(c, brightness), order, k);
    DimmedShown(c, Letters(order)[k], brightness);
  }

  // ---- the way along the string ------------------------------------------

  /** Neighbours in the grid. */
  predicate Adjacent(x: int, y: int, p: int, q: int) {
    (x == p && (y == q + 1 || q == y + 1)) || (y == q && (x == p + 1 || p == x + 1))
  }

  /** The string starts with the first column from the top, or the first row from the
      left, one pixel after the other. */
  lemma StartsAtCorner(m: MatrixMap, i: nat)
    requires m.width > 0 && m.height > 0 && i < if m.vertical then m.height else m.width
    ensures if m.vertical then InGrid(m, 0, i) && WireIndex(m, 0, i) == i
            else InGrid(m, i, 0) && WireIndex(m, i, 0) == i
  {
  }

  /** It takes whole columns, or whole rows, one after the other. */
  lemma RunByRun(m: MatrixMap, x: nat, y: nat)
    requires InGrid(m, x, y)
    ensures if m.vertical then x * m.height <= WireIndex(m, x, y) < x * m.height + m.height
            else y * m.width <= WireIndex(m, x, y) < y * m.width + m.width
  {
  }

  /** Serpentine wiring goes from neighbour to neighbour, all along. */
  lemma SerpentineSteps(m: MatrixMap, x: nat, y: nat, p: nat, q: nat)
    requires m.serpentine && InGrid(m, x, y) && InGrid(m, p, q)
    requires WireIndex(m, p, q) == WireIndex(m, x, y) + 1
    ensures Adjacent(x, y, p, q)
  {
    if m.vertical {
      OneFurther(m.height, x, OffsetIn(m.height, x, y), p, OffsetIn(m.height, p, q));
    } else {
      OneFurther(m.width, y, OffsetIn(m.width, y, x), q, OffsetIn(m.width, q, p));
    }
  }

  /** How far along its run a pixel is. */
  function OffsetIn(length: nat, run: nat, at: nat): (r: nat)
    requires at < length
    ensures r < length
  {
    if run % 2 == 1 then length - 1 - at else at
  }

  lemma OneFurther(length: nat, a: nat, r: nat, b: nat, s: nat)
    requires r < length && s < length && b * length + s == a * length + r + 1
    ensures (a == b && s == r + 1) || (b == a + 1 && r == length - 1 && s == 0)
  {
    if b < a {
      MulMono(b + 1, a, length);
    } else if b > a + 1 {
      MulMono(a + 2, b, length);
    } else if b == a + 1 {
      assert b * length == a * length + length;
    }
  }

  /** Other wiring starts each run at the same end. */
  lemma StraightRuns(m: MatrixMap, x: nat, y: nat)
    requires !m.serpentine && InGrid(m, x, y)
    ensures m.vertical ==> WireIndex(m, x, y) == WireIndex(m, x, 0) + y
    ensures !m.vertical ==> WireIndex(m, x, y) == WireIndex(m, 0, y) + x
  {
  }

  // ---- in the buffers ----------------------------------------------------

  /** The span's last channel is in the last of the universes counted. */
  lemma LastUniverseUsed(m: MatrixMap)
    requires m.startChannel as int + 3 * Area(m) <= 255 * 512
    ensures var n := UniverseCount(m) as int;
            512 * (n - 1) < m.startChannel as int + 3 * Area(m) <= 512 * n ||
            (n == 0 && m.startChannel as int + 3 * Area(m) == 0)
  {
    if TotalChannels(m) > 0 { FittingCount(m); }
  }

  /** Component `k` of pixel `(x, y)` stands in the buffers of `g` where a receiver
      that reads them from `startChannel` on looks for it, and shows that hue. */
  ghost predicate PixelShown(g: Matrix, x: nat, y: nat, k: nat)
    requires g.Valid() && InGrid(g.map_, x, y) && k < 3
    reads g, g.buffers
  {
    var at := g.map_.startChannel as int + 3 * WireIndex(g.map_, x, y) + k;
    at / 512 < |g.buffers| && at % 512 < g.buffers[at / 512].Length &&
    ShowsHue(g.buffers[at / 512][at % 512], PixelAt(g.map_, g.canvas, x, y), Letters(g.map_.order)[k],
             g.masterBrightness)
  }

  /** After a frame of a matrix that starts in universe 0 and fits, every pixel shows. */
  lemma FrameShowsPixels(g: Matrix, x: nat, y: nat, k: nat)
    requires g.Valid() && g.ShowsCanvas() && InGrid(g.map_, x, y) && k < 3
    requires g.map_.startUniverse == 0 && g.map_.startChannel as int + 3 * Area(g.map_) <= 255 * 512
    ensures PixelShown(g, x, y, k)
  {
    var at := 3 * WireIndex(g.map_, x, y) + k;
    ChannelOfPixel(g.map_, g.canvas, g.masterBrightness, x, y, k, at);
    g.ChannelsInPlace(at, 0);
    assert g.InPlace(at);
    HueShown(PixelAt(g.map_, g.canvas, x, y), g.masterBrightness, g.map_.order, k);
  }

  lemma ChannelOfPixel(m: MatrixMap, px: seq<Rgb>, brightness: real, x: nat, y: nat, k: nat, at: nat)
    requires IsCanvas(m, px) && InGrid(m, x, y) && k < 3 && at == 3 * WireIndex(m, x, y) + k
    ensures at < 3 * Area(m) && Channel(m, px, brightness, at) == Component(Dimmed(PixelAt(m, px, x, y), brightness), m.order, k)
  {
    assert at / 3 == WireIndex(m, x, y) && at % 3 == k;
    WireThenUnwire(m, x, y);
  }
}
