/** The wiring order of pixel_matrix.cpp: how a pixel's position becomes its place
    on the LED string, and what a string of colours looks like as channels. */
module Wiring {
  import opened Bytes
  import Reals

  const UNIVERSE_SIZE: nat := 512

  datatype ColorOrder = RGB | GRB | BRG | RBG | GBR | BGR

  datatype Rgb = Rgb(r: real, g: real, b: real)

  datatype MatrixMap = MatrixMap(
    width: u16, height: u16, serpentine: bool, vertical: bool, order: ColorOrder,
    startUniverse: byte, startChannel: u16)

  function Area(m: MatrixMap): nat {
    m.width * m.height
  }

  // ---- positions on the string -------------------------------------------

  predicate InGrid(m: MatrixMap, x: nat, y: nat) {
    x < m.width && y < m.height
  }

  /** Runs go along columns when vertical, along rows otherwise; serpentine wiring
      reverses every odd run. */
  function WireIndex(m: MatrixMap, x: nat, y: nat): (i: nat)
    requires InGrid(m, x, y)
    ensures i < Area(m)
  {
    if m.vertical then
      var offset := if m.serpentine && x % 2 == 1 then m.height - 1 - y else y;
      RunPosition(x, m.height, offset, m.width);
      x * m.height + offset
    else
      var offset := if m.serpentine && y % 2 == 1 then m.width - 1 - x else x;
      RunPosition(y, m.width, offset, m.height);
      y * m.width + offset
  }

  /** A pixel's place in the canvas, which is also the loop order. */
  function Scan(m: MatrixMap, x: nat, y: nat): (i: nat)
    requires InGrid(m, x, y)
    ensures i < Area(m)
  {
    RunPosition(y, m.width, x, m.height);
    y * m.width + x
  }

  lemma ScanInjective(m: MatrixMap, x: nat, y: nat, p: nat, q: nat)
    requires InGrid(m, x, y) && InGrid(m, p, q)
    ensures Scan(m, x, y) == Scan(m, p, q) ==> x == p && y == q
  {
    RunPosition(y, m.width, x, m.height);
    RunPosition(q, m.width, p, m.height);
  }

  function Unwire(m: MatrixMap, i: nat): (p: (int, int))
    requires i < Area(m)
  {
    if m.vertical then
      var x, r := i / m.height, i % m.height;
      (x, if m.serpentine && x % 2 == 1 then m.height - 1 - r else r)
    else
      var y, r := i / m.width, i % m.width;
      (if m.serpentine && y % 2 == 1 then m.width - 1 - r else r, y)
  }

  lemma RunPosition(run: nat, length: nat, offset: nat, runs: nat)
    requires offset < length && run < runs
    ensures 0 <= run * length + offset < runs * length
    ensures (run * length + offset) / length == run && (run * length + offset) % length == offset
  {
    MulMono(run + 1, runs, length);
    assert (run + 1) * length == run * length + length;
    DivisionUnique(run * length + offset, length, run, offset);
  }

  lemma MulMono(a: int, b: int, c: nat)
    requires a <= b
    ensures a * c <= b * c
  {
  }

  lemma DivisionUnique(i: nat, d: nat, q: int, r: nat)
    requires r < d && i == q * d + r
    ensures i / d == q && i % d == r
  {
    assert i == (i / d) * d + i % d;
    if i / d < q { MulMono(i / d + 1, q, d); }
    if i / d > q { MulMono(q + 1, i / d, d); }
  }

  lemma RunBounds(i: nat, length: nat, runs: nat)
    requires i < runs * length
    ensures length > 0 && i / length < runs && i % length < length
    ensures i == (i / length) * length + i % length
  {
  }

  /** Every pixel has its own place on the string ... */
  lemma WireThenUnwire(m: MatrixMap, x: nat, y: nat)
    requires InGrid(m, x, y)
    ensures Unwire(m, WireIndex(m, x, y)) == (x, y)
  {
    if m.vertical {
      RunPosition(x, m.height, if m.serpentine && x % 2 == 1 then m.height - 1 - y else y, m.width);
    } else {
      RunPosition(y, m.width, if m.serpentine && y % 2 == 1 then m.width - 1 - x else x, m.height);
    }
  }

  /** ... and every place on the string its pixel: the wiring is a bijection onto
      `[0, width * height)`. */
  lemma UnwireThenWire(m: MatrixMap, i: nat)
    requires i < Area(m)
    ensures var (x, y) := Unwire(m, i); 0 <= x && 0 <= y && InGrid(m, x, y) && WireIndex(m, x, y) == i
  {
    if m.vertical { UnwireColumns(m, i); } else { UnwireRows(m, i); }
  }

  lemma UnwireColumns(m: MatrixMap, i: nat)
    requires i < Area(m) && m.vertical
    ensures var (x, y) := Unwire(m, i); 0 <= x && 0 <= y && InGrid(m, x, y) && WireIndex(m, x, y) == i
  {
    RunBounds(i, m.height, m.width);
    var x, r := i / m.height, i % m.height;
    var y := if m.serpentine && x % 2 == 1 then m.height - 1 - r else r;
    assert WireIndex(m, x, y) == x * m.height + r;
  }

  lemma UnwireRows(m: MatrixMap, i: nat)
    requires i < Area(m) && !m.vertical
    ensures var (x, y) := Unwire(m, i); 0 <= x && 0 <= y && InGrid(m, x, y) && WireIndex(m, x, y) == i
  {
    RunBounds(i, m.width, m.height);
    var y, r := i / m.width, i % m.width;
    var x := if m.serpentine && y % 2 == 1 then m.width - 1 - r else r;
    assert WireIndex(m, x, y) == y * m.width + r;
  }

  // ---- colours -----------------------------------------------------------

  function ToByte(v: real): byte {
    var n := Reals.Round(v * 255.0);
    if n < 0 then 0 else if n > 255 then 255 else n
  }

  function Dimmed(c: Rgb, brightness: real): Rgb {
    Rgb(c.r * brightness, c.g * brightness, c.b * brightness)
  }

  function Component(c: Rgb, order: ColorOrder, k: nat): byte
    requires k < 3
  {
    var r, g, b := ToByte(c.r), ToByte(c.g), ToByte(c.b);
    match order
    case RGB => [r, g, b][k]
    case GRB => [g, r, b][k]
    case BRG => [b, r, g][k]
    case RBG => [r, b, g][k]
    case GBR => [g, b, r][k]
    case BGR => [b, g, r][k]
  }

  predicate IsCanvas(m: MatrixMap, px: seq<Rgb>) {
    |px| == Area(m)
  }

  function PixelAt(m: MatrixMap, px: seq<Rgb>, x: nat, y: nat): Rgb
    requires IsCanvas(m, px) && InGrid(m, x, y)
  {
    px[Scan(m, x, y)]
  }

  /** Channel `c` of the string: the wired pixel's component, in colour order. */
  function Channel(m: MatrixMap, px: seq<Rgb>, brightness: real, c: nat): byte
    requires IsCanvas(m, px) && c < 3 * Area(m)
  {
    UnwireThenWire(m, c / 3);
    var (x, y) := Unwire(m, c / 3);
    Component(Dimmed(PixelAt(m, px, x, y), brightness), m.order, c % 3)
  }

  // ---- channels in the buffers -------------------------------------------

  function Start(m: MatrixMap): nat {
    m.startUniverse as int * UNIVERSE_SIZE + m.startChannel as int
  }

  /** What a frame leaves at absolute channel `a`. */
  function Cell(m: MatrixMap, px: seq<Rgb>, brightness: real, a: nat): byte
    requires IsCanvas(m, px)
  {
    var c := a - Start(m);
    if 0 <= c < 3 * Area(m) then Channel(m, px, brightness, c) else 0
  }

  function TotalChannels(m: MatrixMap): nat {
    m.startChannel as int + 3 * Area(m)
  }

  /** As the program counts: the span in 32 bits, its universes in a byte. */
  function UniverseCount(m: MatrixMap): byte {
    var total := TotalChannels(m) % 0x1_0000_0000;
    if total == 0 then 0 else ((total - 1) / UNIVERSE_SIZE + 1) % 256
  }

  /** The span fits the byte that counts its universes. */
  predicate SpanFits(m: MatrixMap) {
    TotalChannels(m) <= 255 * UNIVERSE_SIZE
  }

  lemma FittingCount(m: MatrixMap)
    requires SpanFits(m) && TotalChannels(m) > 0
    ensures UniverseCount(m) as int == (TotalChannels(m) - 1) / UNIVERSE_SIZE + 1
  {
  }

  lemma SameOrEarlier(a: nat, b: nat)
    requires a <= b
    ensures a / UNIVERSE_SIZE <= b / UNIVERSE_SIZE
  {
  }

  /** Within that span every channel of the matrix has a buffer, and the wiring
      index fits 16 bits. */
  lemma SpanHasBuffers(m: MatrixMap, c: nat)
    requires SpanFits(m) && c < 3 * Area(m)
    ensures Area(m) <= 0x1_0000
    ensures (m.startChannel as int + c) / UNIVERSE_SIZE < UniverseCount(m) as int
  {
    FittingCount(m);
    SameOrEarlier(m.startChannel as int + c, TotalChannels(m) - 1);
  }

  /** Beyond it the last channel has none. */
  lemma LastChannelLost(m: MatrixMap, at: nat)
    requires !SpanFits(m) && at == TotalChannels(m) - 1
    ensures Area(m) > 0 && at / UNIVERSE_SIZE >= UniverseCount(m) as int
  {
    SameOrEarlier(255 * UNIVERSE_SIZE, at);
  }
}
