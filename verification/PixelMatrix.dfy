/** PixelMatrix of pixel_matrix.cpp: packs a canvas into 512-byte universe buffers
    in wiring order. The pattern, if any, has already drawn on the canvas. */
module PixelMatrix {
  import opened Bytes
  import opened Wiring

  // ---- what a frame writes -----------------------------------------------

  /** The pixel the loops reach after `i` others. */
  function Unscan(m: MatrixMap, i: nat): (p: (int, int))
    requires i < Area(m)
    ensures 0 <= p.0 && 0 <= p.1 && InGrid(m, p.0, p.1) && Scan(m, p.0, p.1) == i
  {
    RunBounds(i, m.width, m.height);
    (i % m.width, i / m.width)
  }

  lemma ScanThenUnscan(m: MatrixMap, x: nat, y: nat)
    requires InGrid(m, x, y)
    ensures Unscan(m, Scan(m, x, y)) == (x, y)
  {
    var (p, q) := Unscan(m, Scan(m, x, y));
    ScanInjective(m, x, y, p, q);
  }

  /** The wiring index as the program keeps it, in 16 bits. */
  function Index16(m: MatrixMap, x: nat, y: nat): (i: nat)
    requires InGrid(m, x, y)
    ensures Area(m) <= 0x1_0000 ==> i == WireIndex(m, x, y)
  {
    WireIndex(m, x, y) % 0x1_0000
  }

  /** The absolute channel of a pixel's component. */
  function Place(m: MatrixMap, x: nat, y: nat, k: nat): nat
    requires InGrid(m, x, y)
  {
    Start(m) + 3 * Index16(m, x, y) + k
  }

  function ComponentAt(m: MatrixMap, px: seq<Rgb>, brightness: real, x: nat, y: nat, k: nat): byte
    requires IsCanvas(m, px) && InGrid(m, x, y) && k < 3
  {
    Component(Dimmed(PixelAt(m, px, x, y), brightness), m.order, k)
  }

  /** Absolute channel `a` after the first `p` components of the canvas, in loop
      order: the last one placed there, or zero. */
  function Drawn(m: MatrixMap, px: seq<Rgb>, brightness: real, a: nat, p: nat): byte
    requires IsCanvas(m, px) && p <= 3 * Area(m)
  {
    if p == 0 then 0
    else
      var (x, y) := Unscan(m, (p - 1) / 3);
      if Place(m, x, y, (p - 1) % 3) == a then ComponentAt(m, px, brightness, x, y, (p - 1) % 3)
      else Drawn(m, px, brightness, a, p - 1)
  }

  lemma DrawnStep(m: MatrixMap, px: seq<Rgb>, brightness: real, x: nat, y: nat, k: nat, a: nat, p: nat)
    requires IsCanvas(m, px) && InGrid(m, x, y) && k < 3 && p == 3 * Scan(m, x, y) + k
    ensures Drawn(m, px, brightness, a, p + 1)
            == if a == Place(m, x, y, k) then ComponentAt(m, px, brightness, x, y, k)
               else Drawn(m, px, brightness, a, p)
  {
    assert p / 3 == Scan(m, x, y) && p % 3 == k;
    ScanThenUnscan(m, x, y);
  }

  // ---- every channel once ------------------------------------------------

  /** When, in loop order, channel `c` of the string is written. */
  function Turn(m: MatrixMap, c: nat): (t: nat)
    requires c < 3 * Area(m)
    ensures t < 3 * Area(m)
  {
    UnwireThenWire(m, c / 3);
    var (x, y) := Unwire(m, c / 3);
    3 * Scan(m, x, y) + c % 3
  }

  /** Distinct channels have distinct turns. */
  lemma TurnOf(m: MatrixMap, x: nat, y: nat, k: nat, c: nat)
    requires InGrid(m, x, y) && k < 3 && c < 3 * Area(m)
    ensures Turn(m, c) == 3 * Scan(m, x, y) + k <==> c == 3 * WireIndex(m, x, y) + k
  {
    UnwireThenWire(m, c / 3);
    WireThenUnwire(m, x, y);
    var (p, q) := Unwire(m, c / 3);
    ScanInjective(m, x, y, p, q);
  }

  /** Absolute channel `a` once every channel whose turn is before `p` stands in
      its place. */
  function Partial(m: MatrixMap, px: seq<Rgb>, brightness: real, a: nat, p: nat): byte
    requires IsCanvas(m, px)
  {
    var c := a - Start(m);
    if 0 <= c < 3 * Area(m) && Turn(m, c) < p then Channel(m, px, brightness, c) else 0
  }

  lemma PartialStep(m: MatrixMap, px: seq<Rgb>, brightness: real, x: nat, y: nat, k: nat, a: nat, p: nat)
    requires IsCanvas(m, px) && InGrid(m, x, y) && k < 3 && p == 3 * Scan(m, x, y) + k
    ensures Partial(m, px, brightness, a, p + 1)
            == if a == Start(m) + 3 * WireIndex(m, x, y) + k then ComponentAt(m, px, brightness, x, y, k)
               else Partial(m, px, brightness, a, p)
  {
    var c := a - Start(m);
    WireThenUnwire(m, x, y);
    if 0 <= c < 3 * Area(m) {
      TurnOf(m, x, y, k, c);
      if c == 3 * WireIndex(m, x, y) + k {
        assert c / 3 == WireIndex(m, x, y) && c % 3 == k;
      }
    }
  }

  /** While the wiring index fits 16 bits, channel `c` of the string is written at
      its own turn and at no other. */
  lemma {:induction false} DrawnOnce(m: MatrixMap, px: seq<Rgb>, brightness: real, a: nat, p: nat)
    requires IsCanvas(m, px) && Area(m) <= 0x1_0000 && p <= 3 * Area(m)
    ensures Drawn(m, px, brightness, a, p) == Partial(m, px, brightness, a, p)
    decreases p
  {
    if p == 0 {
    } else {
      var (x, y) := Unscan(m, (p - 1) / 3);
      DrawnOnce(m, px, brightness, a, p - 1);
      BothStep(m, px, brightness, x, y, (p - 1) % 3, a, p - 1);
    }
  }

  lemma BothStep(m: MatrixMap, px: seq<Rgb>, brightness: real, x: nat, y: nat, k: nat, a: nat, p: nat)
    requires IsCanvas(m, px) && Area(m) <= 0x1_0000 && InGrid(m, x, y) && k < 3 && p == 3 * Scan(m, x, y) + k
    requires p < 3 * Area(m) && Drawn(m, px, brightness, a, p) == Partial(m, px, brightness, a, p)
    ensures Drawn(m, px, brightness, a, p + 1) == Partial(m, px, brightness, a, p + 1)
  {
    DrawnStep(m, px, brightness, x, y, k, a, p);
    PartialStep(m, px, brightness, x, y, k, a, p);
  }

  /** What a whole frame leaves at absolute channel `a`. */
  function Frame(m: MatrixMap, px: seq<Rgb>, brightness: real, a: nat): byte
    requires IsCanvas(m, px)
  {
    Drawn(m, px, brightness, a, 3 * Area(m))
  }

  /** In a matrix of at most 65536 pixels that is the channel that belongs there,
      and zero elsewhere. */
  lemma FrameIsCell(m: MatrixMap, px: seq<Rgb>, brightness: real, a: nat)
    requires IsCanvas(m, px) && Area(m) <= 0x1_0000
    ensures Frame(m, px, brightness, a) == Cell(m, px, brightness, a)
  {
    DrawnOnce(m, px, brightness, a, 3 * Area(m));
  }

  // ---- when the packing is right -----------------------------------------

  /** Channel `c` of the string has a buffer and stands there where a receiver
      looks for it, in order from `startChannel` of the first buffer on. */
  predicate Lands(m: MatrixMap, px: seq<Rgb>, brightness: real, c: nat)
    requires IsCanvas(m, px) && c < 3 * Area(m)
  {
    (m.startChannel as int + c) / UNIVERSE_SIZE < UniverseCount(m) as int &&
    Frame(m, px, brightness, m.startChannel as int + c) == Channel(m, px, brightness, c)
  }

  predicate Packs(m: MatrixMap, px: seq<Rgb>, brightness: real)
    requires IsCanvas(m, px)
  {
    forall c :: 0 <= c < 3 * Area(m) ==> Lands(m, px, brightness, c)
  }

  lemma FittingLands(m: MatrixMap, px: seq<Rgb>, brightness: real, c: nat)
    requires IsCanvas(m, px) && m.startUniverse == 0 && SpanFits(m) && c < 3 * Area(m)
    ensures Lands(m, px, brightness, c)
  {
    SpanHasBuffers(m, c);
    FrameIsCell(m, px, brightness, m.startChannel as int + c);
  }

  function White(n: nat): (px: seq<Rgb>)
    ensures |px| == n
  {
    seq(n, _ => Rgb(1.0, 1.0, 1.0))
  }

  /** A span that starts in a later universe is filled beside its first channel. */
  lemma FirstMisplaced(m: MatrixMap)
    requires Area(m) > 0 && m.startUniverse > 0 && SpanFits(m)
    ensures !Lands(m, White(Area(m)), 1.0, 0)
  {
    var px := White(Area(m));
    SpanHasBuffers(m, 0);
    FrameIsCell(m, px, 1.0, m.startChannel as int);
    UnwireThenWire(m, 0);
    assert Channel(m, px, 1.0, 0) == 255;
  }

  /** White on any other matrix shows it. */
  lemma WhiteMisplaced(m: MatrixMap)
    requires Area(m) > 0 && (m.startUniverse > 0 || !SpanFits(m))
    ensures !Packs(m, White(Area(m)), 1.0)
  {
    if !SpanFits(m) {
      LastChannelLost(m, m.startChannel as int + (3 * Area(m) - 1));
      assert !Lands(m, White(Area(m)), 1.0, 3 * Area(m) - 1);
    } else {
      FirstMisplaced(m);
    }
  }

  /** Buffers are counted in a byte and numbered from the matrix's first universe,
      but filled by absolute channel: every channel lands in its place, for every
      canvas and brightness, exactly when the matrix has no pixels, or starts in
      universe 0 and spans at most 255 universes. */
  lemma PacksIffFits(m: MatrixMap)
    ensures (forall px, brightness :: IsCanvas(m, px) && 0.0 <= brightness <= 1.0 ==> Packs(m, px, brightness))
            <==> Area(m) == 0 || (m.startUniverse == 0 && SpanFits(m))
  {
    if Area(m) == 0 {
    } else if m.startUniverse == 0 && SpanFits(m) {
      forall px, brightness | IsCanvas(m, px) && 0.0 <= brightness <= 1.0 ensures Packs(m, px, brightness) {
        forall c | 0 <= c < 3 * Area(m) ensures Lands(m, px, brightness, c) { FittingLands(m, px, brightness, c); }
      }
    } else {
      WhiteMisplaced(m);
    }
  }

  class Matrix {
    const map_: MatrixMap
    var canvas: seq<Rgb>
    var masterBrightness: real
    const buffers: seq<array<byte>>

    ghost predicate Valid()
      reads this
    {
      IsCanvas(map_, canvas) && |buffers| == UniverseCount(map_) as int && 0.0 <= masterBrightness <= 1.0 &&
      (forall u :: 0 <= u < |buffers| ==> buffers[u].Length == UNIVERSE_SIZE) &&
      (forall u, v :: 0 <= u < v < |buffers| ==> buffers[u] != buffers[v])
    }

    constructor (m: MatrixMap)
      ensures Valid() && map_ == m && fresh(buffers) && masterBrightness == 1.0
      ensures forall i :: 0 <= i < |canvas| ==> canvas[i] == Rgb(0.0, 0.0, 0.0)
    {
      map_ := m;
      canvas := seq(Area(m), _ => Rgb(0.0, 0.0, 0.0));
      masterBrightness := 1.0;
      var bufs := AllocateBuffers(UniverseCount(m) as int, UNIVERSE_SIZE);
      buffers := bufs;
    }

    method SetMasterBrightness(b01: real)
      requires Valid()
      modifies this`masterBrightness
      ensures Valid() && (0.0 <= b01 <= 1.0 ==> masterBrightness == b01)
    {
      masterBrightness := if b01 < 0.0 then 0.0 else if b01 > 1.0 then 1.0 else b01;
    }

    method SetPixel(x: nat, y: nat, c: Rgb)
      requires Valid()
      modifies this`canvas
      ensures Valid()
      ensures canvas == if InGrid(map_, x, y) then old(canvas)[Scan(map_, x, y) := c] else old(canvas)
    {
      if x >= map_.width || y >= map_.height { return; }
      canvas := canvas[Scan(map_, x, y) := c];
    }

    /** The byte at absolute channel `a` of the buffers. */
    ghost function At(a: nat): byte
      requires Valid() && a < UNIVERSE_SIZE * |buffers|
      reads this, buffers
    {
      buffers[a / UNIVERSE_SIZE][a % UNIVERSE_SIZE]
    }

    /** Stores one channel, if it has a buffer. */
    method Put(a: nat, v: byte)
      requires Valid()
      modifies buffers
      ensures Valid()
      ensures forall b :: 0 <= b < UNIVERSE_SIZE * |buffers| ==> At(b) == if b == a then v else old(At(b))
    {
      var u, ch := a / UNIVERSE_SIZE, a % UNIVERSE_SIZE;
      if u < |buffers| {
        buffers[u][ch] := v;
      }
    }

    method ZeroBuffers()
      requires Valid()
      modifies buffers
      ensures Valid()
      ensures forall a :: 0 <= a < UNIVERSE_SIZE * |buffers| ==> At(a) == 0
    {
      for u := 0 to |buffers|
        invariant Valid()
        invariant forall v, i :: 0 <= v < u && 0 <= i < UNIVERSE_SIZE ==> buffers[v][i] == 0
      {
        var buf := buffers[u];
        for i := 0 to UNIVERSE_SIZE
          modifies buf
          invariant forall j :: 0 <= j < i ==> buf[j] == 0
          invariant forall v, j :: 0 <= v < u && 0 <= j < UNIVERSE_SIZE ==> buffers[v][j] == 0
        {
          buf[i] := 0;
        }
      }
    }

    /** The first `p` components of the frame have been written. */
    ghost predicate Packed(p: nat)
      requires Valid() && p <= 3 * Area(map_)
      reads this, buffers
    {
      forall a :: 0 <= a < UNIVERSE_SIZE * |buffers| ==>
        At(a) == Drawn(map_, canvas, masterBrightness, a, p)
    }

    method PackComponent(x: nat, y: nat, k: nat, a: nat, v: byte, ghost p: nat)
      requires Valid() && InGrid(map_, x, y) && k < 3 && p == 3 * Scan(map_, x, y) + k && p < 3 * Area(map_)
      requires a == Place(map_, x, y, k) && v == ComponentAt(map_, canvas, masterBrightness, x, y, k)
      requires Packed(p)
      modifies buffers
      ensures Valid() && Packed(p + 1)
    {
      Put(a, v);
      forall b | 0 <= b < UNIVERSE_SIZE * |buffers|
        ensures At(b) == Drawn(map_, canvas, masterBrightness, b, p + 1)
      {
        assert old(At(b)) == Drawn(map_, canvas, masterBrightness, b, p);
        DrawnStep(map_, canvas, masterBrightness, x, y, k, b, p);
      }
    }

    /** The bytes of one pixel in colour order, and the channel they start at. */
    method PixelBytes(x: nat, y: nat) returns (comp: seq<byte>, at: nat)
      requires Valid() && InGrid(map_, x, y)
      ensures |comp| == 3 && at == Place(map_, x, y, 0)
      ensures forall k :: 0 <= k < 3 ==> comp[k] == ComponentAt(map_, canvas, masterBrightness, x, y, k)
    {
      var color := Dimmed(PixelAt(map_, canvas, x, y), masterBrightness);
      comp := [Component(color, map_.order, 0), Component(color, map_.order, 1), Component(color, map_.order, 2)];
      at := Start(map_) + 3 * Index16(map_, x, y);
    }

    /** Writes the three channels of one pixel. */
    method PackPixel(x: nat, y: nat, ghost p: nat)
      requires Valid() && InGrid(map_, x, y) && p == 3 * Scan(map_, x, y) && p + 3 <= 3 * Area(map_)
      requires Packed(p)
      modifies buffers
      ensures Valid() && Packed(p + 3)
    {
      var comp, at := PixelBytes(x, y);
      for k := 0 to 3
        invariant Valid() && Packed(p + k)
      {
        PackComponent(x, y, k, at + k, comp[k], p + k);
      }
    }

    /** Every buffer byte is what a frame leaves there. */
    ghost predicate ShowsCanvas()
      requires Valid()
      reads this, buffers
    {
      forall a :: 0 <= a < UNIVERSE_SIZE * |buffers| ==> At(a) == Frame(map_, canvas, masterBrightness, a)
    }

    lemma Begin()
      requires Valid() && forall a :: 0 <= a < UNIVERSE_SIZE * |buffers| ==> At(a) == 0
      ensures Packed(0)
    {
    }

    lemma Finish(row: nat)
      requires Valid() && row == map_.height * map_.width && Packed(3 * row)
      ensures ShowsCanvas()
    {
      assert row == Area(map_);
    }

    lemma RowWithin(y: nat, row: nat)
      requires y < map_.height && row == y * map_.width
      ensures row + map_.width <= Area(map_) && row + map_.width == (y + 1) * map_.width
    {
      MulMono(y + 1, map_.height, map_.width);
    }

    /** A frame: every buffer byte holds the component last placed there in loop
        order, or zero. */
    method Render()
      requires Valid()
      modifies buffers
      ensures Valid() && ShowsCanvas()
    {
      ZeroBuffers();
      Begin();
      var y := 0;
      ghost var row := 0;
      while y < map_.height
        invariant 0 <= y <= map_.height && row == y * map_.width <= Area(map_)
        invariant Valid() && Packed(3 * row)
      {
        RowWithin(y, row);
        PackRow(y, row);
        row := row + map_.width;
        y := y + 1;
      }
      Finish(row);
    }

    method PackRow(y: nat, ghost row: nat)
      requires Valid() && y < map_.height && row == y * map_.width && row + map_.width <= Area(map_)
      requires Packed(3 * row)
      modifies buffers
      ensures Valid() && Packed(3 * (row + map_.width))
    {
      for x := 0 to map_.width
        invariant Valid() && Packed(3 * (row + x))
      {
        PackPixel(x, y, 3 * (row + x));
      }
    }

    /** Channel `c` of the string is byte `(startChannel + c) % 512` of buffer
        `(startChannel + c) / 512`. */
    ghost predicate InPlace(c: nat)
      requires Valid() && c < 3 * Area(map_)
      reads this, buffers
    {
      var at := map_.startChannel as int + c;
      at / UNIVERSE_SIZE < |buffers| &&
      buffers[at / UNIVERSE_SIZE][at % UNIVERSE_SIZE] == Channel(map_, canvas, masterBrightness, c)
    }

    lemma InPlaceIffLands(c: nat)
      requires Valid() && ShowsCanvas() && c < 3 * Area(map_)
      ensures InPlace(c) <==> Lands(map_, canvas, masterBrightness, c)
    {
      var at := map_.startChannel as int + c;
      if at / UNIVERSE_SIZE < |buffers| {
        assert At(at) == Frame(map_, canvas, masterBrightness, at);
      }
    }

    /** After a frame the buffers hold the string in place exactly when the
        specification says this canvas packs. */
    lemma BuffersPack()
      requires Valid() && ShowsCanvas()
      ensures (forall c :: 0 <= c < 3 * Area(map_) ==> InPlace(c)) <==> Packs(map_, canvas, masterBrightness)
    {
      forall c | 0 <= c < 3 * Area(map_) ensures InPlace(c) <==> Lands(map_, canvas, masterBrightness, c) {
        InPlaceIffLands(c);
      }
    }

    /** In a matrix that starts in universe 0 and whose span fits, channel `c` of
        the string is in its place, across universe boundaries, and every byte
        outside the string is zero. */
    lemma ChannelsInPlace(c: nat, a: nat)
      requires Valid() && ShowsCanvas()
      requires map_.startUniverse == 0 && SpanFits(map_)
      ensures c < 3 * Area(map_) ==> InPlace(c)
      ensures a < UNIVERSE_SIZE * |buffers| && !(map_.startChannel as int <= a < TotalChannels(map_)) ==>
                buffers[a / UNIVERSE_SIZE][a % UNIVERSE_SIZE] == 0
    {
      if c < 3 * Area(map_) {
        FittingLands(map_, canvas, masterBrightness, c);
        InPlaceIffLands(c);
      }
      if a < UNIVERSE_SIZE * |buffers| {
        assert At(a) == Frame(map_, canvas, masterBrightness, a);
        if Area(map_) > 0 { SpanHasBuffers(map_, 0); }
        FrameIsCell(map_, canvas, masterBrightness, a);
      }
    }
  }
}
