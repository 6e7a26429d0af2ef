/** Which byte of an MDF1 blob holds what, as FORMAT.md lays a controller definition
    out: a header, five tables of records, the init messages and the names. */
module ControllerLayout {
  import opened Bytes
  import opened Mdef
  import opened ControllerFormat

  // ---- where the tables start --------------------------------------------

  function Times(wide: bool, w: nat, n: nat): nat {
    if wide then (w + 2) * n else w * n
  }

  function PadsStart(b: Builder): nat {
    (if b.initBlobs != [] then 14 else 13) + |b.name|
  }

  function FadersStart(b: Builder): nat {
    PadsStart(b) + Times(Wide(b), 2, |b.pads|)
  }

  function EncodersStart(b: Builder): nat {
    FadersStart(b) + Times(Wide(b), 4, |b.faders|)
  }

  function LedsStart(b: Builder): nat {
    EncodersStart(b) + 3 * |b.encoders|
  }

  function ColorsStart(b: Builder): nat {
    LedsStart(b) + Times(Wide(b), 7, |b.leds|)
  }

  function NamesStart(b: Builder): nat {
    |Encoded(b)| - |NameBlob(b)|
  }

  lemma TableBytes(rows: seq<seq<byte>>, wide: bool, w: nat)
    requires AllWide(rows, if wide then w + 2 else w)
    ensures |Flat(rows)| == Times(wide, w, |rows|)
  {
    FlatSize(rows, if wide then w + 2 else w);
  }

  lemma WideTimes(wide: bool, w: nat, n: nat)
    ensures (if wide then w + 2 else w) * n == Times(wide, w, n)
  {
  }

  lemma {:induction false} FrontPlaces(b: Builder, parts: seq<seq<byte>>)
    requires Encodable(b) && parts == Parts(b)
    ensures PartStart(parts, 2) == PadsStart(b) && PartStart(parts, 3) == FadersStart(b) && PartStart(parts, 4) == EncodersStart(b)
  {
    HeaderFields(b);
    FrontStarts(b, parts);
    WideTimes(Wide(b), 2, |b.pads|);
    WideTimes(Wide(b), 4, |b.faders|);
  }

  lemma {:induction false} BackPlaces(b: Builder, parts: seq<seq<byte>>)
    requires Encodable(b) && parts == Parts(b)
    ensures PartStart(parts, 5) == LedsStart(b) && PartStart(parts, 6) == ColorsStart(b)
  {
    FrontPlaces(b, parts);
    BackStarts(b, parts);
    WideTimes(Wide(b), 7, |b.leds|);
  }

  lemma {:induction false} PartHeld(parts: seq<seq<byte>>, k: nat, at: nat)
    requires k < |parts| && at == PartStart(parts, k)
    ensures Holds(Flat(parts), at, parts[k])
  {
    PartAt(parts, k, parts[k]);
  }

  lemma {:induction false} PadsStand(b: Builder)
    requires Encodable(b)
    ensures Holds(Encoded(b), PadsStart(b), Flat(PadRows(b)))
  {
    FrontPlaces(b, Parts(b));
    PartHeld(Parts(b), 2, PadsStart(b));
  }

  lemma {:induction false} FadersStand(b: Builder)
    requires Encodable(b)
    ensures Holds(Encoded(b), FadersStart(b), Flat(FaderRows(b)))
  {
    FrontPlaces(b, Parts(b));
    PartHeld(Parts(b), 3, FadersStart(b));
  }

  lemma {:induction false} EncodersStand(b: Builder)
    requires Encodable(b)
    ensures Holds(Encoded(b), EncodersStart(b), Flat(EncoderRows(b)))
  {
    FrontPlaces(b, Parts(b));
    PartHeld(Parts(b), 4, EncodersStart(b));
  }

  lemma {:induction false} LedsStand(b: Builder)
    requires Encodable(b)
    ensures Holds(Encoded(b), LedsStart(b), Flat(LedRows(b)))
  {
    BackPlaces(b, Parts(b));
    PartHeld(Parts(b), 5, LedsStart(b));
  }

  lemma {:induction false} ColorsStand(b: Builder)
    requires Encodable(b)
    ensures Holds(Encoded(b), ColorsStart(b), Flat(ColorRows(b)))
  {
    BackPlaces(b, Parts(b));
    PartHeld(Parts(b), 6, ColorsStart(b));
  }

  lemma {:induction false} NamesStand(b: Builder)
    ensures 0 <= NamesStart(b) <= |Encoded(b)| && Encoded(b)[NamesStart(b)..] == NameBlob(b)
  {
    LastPartAt(Parts(b), NameBlob(b));
  }

  /** Row `i` of a table whose rows are two bytes longer in the wider versions. */
  lemma {:induction false} RowOfTable(d: seq<byte>, at: nat, rows: seq<seq<byte>>, wide: bool, w: nat, i: nat)
    requires Holds(d, at, Flat(rows)) && i < |rows| && AllWide(rows, if wide then w + 2 else w)
    ensures Holds(d, at + Times(wide, w, i), rows[i])
  {
    TableBytes(rows[..i], wide, w);
    RowHeld(d, at, rows, i, Times(wide, w, i));
  }

  // ---- records -----------------------------------------------------------

  /** The two channel bytes of the wider versions. */
  predicate ChannelsAt(d: seq<byte>, p: nat, wide: bool, from: byte, to: byte) {
    wide ==> p + 2 <= |d| && d[p] == from && d[p + 1] == to
  }

  predicate PadAt(d: seq<byte>, p: nat, wide: bool, pad: PadRange) {
    p + 2 <= |d| && d[p] == pad.noteFrom && d[p + 1] == pad.noteTo &&
    ChannelsAt(d, p + 2, wide, pad.channelFrom, pad.channelTo)
  }

  /** The number at `p` leads to this name in the name table, NUL-terminated. */
  predicate NameAt(d: seq<byte>, p: nat, names: nat, name: seq<byte>) {
    p + 2 <= |d| && Holds(d, names + d[p] as int + 256 * (d[p + 1] as int), name + [0])
  }

  predicate FaderAt(d: seq<byte>, p: nat, wide: bool, f: FaderSpec, names: nat) {
    p + 4 <= |d| && d[p] == f.ccFrom && d[p + 1] == f.ccTo &&
    (if f.name == [] then d[p + 2] == 0xFF && d[p + 3] == 0xFF else NameAt(d, p + 2, names, f.name)) &&
    ChannelsAt(d, p + 4, wide, f.channelFrom, f.channelTo)
  }

  predicate EncoderAt(d: seq<byte>, p: nat, e: EncoderRange) {
    p + 3 <= |d| && d[p] == e.ccFrom && d[p + 1] == e.ccTo && d[p + 2] == e.mode
  }

  /** `first` is the number of colours of the ranges before. */
  predicate LedAt(d: seq<byte>, p: nat, wide: bool, l: LedSpec, first: nat) {
    p + 7 <= |d| && d[p] == l.msgType && d[p + 1] == l.addrFrom && d[p + 2] == l.addrTo && d[p + 3] == l.semantic &&
    d[p + 4] as int + 256 * (d[p + 5] as int) == first && d[p + 6] as int == |l.colors| &&
    ChannelsAt(d, p + 7, wide, l.channelFrom, l.channelTo)
  }

  predicate ColorAt(d: seq<byte>, p: nat, c: ColorSpec, names: nat) {
    p + 3 <= |d| && NameAt(d, p, names, c.name) && d[p + 2] == c.value
  }

  lemma HeldChannels(d: seq<byte>, p: nat, row: seq<byte>, wide: bool, at: nat, from: byte, to: byte)
    requires Holds(d, p, row) && (wide ==> at + 2 <= |row| && row[at] == from && row[at + 1] == to)
    ensures ChannelsAt(d, p + at, wide, from, to)
  {
    if wide {
      HoldsByte(d, p, row, at);
      HoldsByte(d, p, row, at + 1);
    }
  }

  lemma HeldPad(d: seq<byte>, p: nat, wide: bool, pad: PadRange)
    requires Holds(d, p, PadRow(wide, pad))
    ensures PadAt(d, p, wide, pad)
  {
    var row := PadRow(wide, pad);
    HoldsByte(d, p, row, 0);
    HoldsByte(d, p, row, 1);
    HeldChannels(d, p, row, wide, 2, pad.channelFrom, pad.channelTo);
  }

  lemma HeldFader(d: seq<byte>, p: nat, wide: bool, f: FaderSpec, off: u16, names: nat)
    requires Holds(d, p, FaderRow(wide, f, off))
    requires if f.name == [] then off == UNNAMED else Holds(d, names + off, f.name + [0])
    ensures FaderAt(d, p, wide, f, names)
  {
    var row := FaderRow(wide, f, off);
    HoldsByte(d, p, row, 0);
    HoldsByte(d, p, row, 1);
    HoldsByte(d, p, row, 2);
    HoldsByte(d, p, row, 3);
    LittleEndian(off, 0);
    HeldChannels(d, p, row, wide, 4, f.channelFrom, f.channelTo);
  }

  lemma HeldEncoder(d: seq<byte>, p: nat, e: EncoderRange)
    requires Holds(d, p, EncoderRow(e))
    ensures EncoderAt(d, p, e)
  {
    var row := EncoderRow(e);
    HoldsByte(d, p, row, 0);
    HoldsByte(d, p, row, 1);
    HoldsByte(d, p, row, 2);
  }

  lemma HeldLed(d: seq<byte>, p: nat, wide: bool, l: LedSpec, first: u16)
    requires Holds(d, p, LedRow(wide, l, first)) && |l.colors| < 256
    ensures LedAt(d, p, wide, l, first as int)
  {
    var row := LedRow(wide, l, first);
    HoldsByte(d, p, row, 0);
    HoldsByte(d, p, row, 1);
    HoldsByte(d, p, row, 2);
    HoldsByte(d, p, row, 3);
    HoldsByte(d, p, row, 4);
    HoldsByte(d, p, row, 5);
    HoldsByte(d, p, row, 6);
    LittleEndian(first, 0);
    HeldChannels(d, p, row, wide, 7, l.channelFrom, l.channelTo);
  }

  lemma HeldColor(d: seq<byte>, p: nat, c: ColorSpec, off: u16, names: nat)
    requires Holds(d, p, ColorRow(ColorEntry(off, c.value))) && Holds(d, names + off, c.name + [0])
    ensures ColorAt(d, p, c, names)
  {
    var row := ColorRow(ColorEntry(off, c.value));
    HoldsByte(d, p, row, 0);
    HoldsByte(d, p, row, 1);
    HoldsByte(d, p, row, 2);
    LittleEndian(off, 0);
  }

  // ---- the blob ----------------------------------------------------------

  /** The header and the rule for the version: 3 with init messages, else 2 when some
      range is of particular channels, else 1. */
  lemma {:induction false} ControllerHeader(b: Builder)
    requires Encodable(b)
    ensures var d := Encoded(b);
            |d| >= 13 && d[..4] == [0x4D, 0x44, 0x46, 0x31] && d[5] == 0 && d[6] == b.midiChannel &&
            (d[4] == 3 <==> b.initBlobs != []) && (b.initBlobs == [] ==> (d[4] == 2 <==> AnyChannelRange(b))) &&
            1 <= d[4] <= 3 && (Wide(b) <==> d[4] >= 2) &&
            d[7] as int == |b.name| && d[8] as int == |b.pads| && d[9] as int == |b.faders| &&
            d[10] as int == |b.encoders| && d[11] as int == |b.leds| && d[12] as int == |ColorsOf(b.leds)| &&
            (b.initBlobs != [] ==> |d| >= 14 && d[13] as int == |b.initBlobs|)
  {
    HeaderFields(b);
    FirstPart(Parts(b));
    HeaderShared(Header(b), Flat(Parts(b)[1..]));
  }

  lemma {:induction false} PadInTable(d: seq<byte>, at: nat, b: Builder, i: nat)
    requires Holds(d, at, Flat(PadRows(b))) && i < |b.pads|
    ensures PadAt(d, at + Times(Wide(b), 2, i), Wide(b), b.pads[i])
  {
    var rows := PadRows(b);
    RowWidths(b);
    RowOfTable(d, at, rows, Wide(b), 2, i);
    HeldPad(d, at + Times(Wide(b), 2, i), Wide(b), b.pads[i]);
  }

  lemma {:induction false} PadInBlob(b: Builder, i: nat)
    requires Encodable(b) && i < |b.pads|
    ensures PadAt(Encoded(b), PadsStart(b) + Times(Wide(b), 2, i), Wide(b), b.pads[i])
  {
    PadsStand(b);
    PadInTable(Encoded(b), PadsStart(b), b, i);
  }

  lemma {:induction false} NameFound(b: Builder, k: nat, name: seq<byte>, off: u16)
    requires Encodable(b) && k < |NameChunks(b)| && NameChunks(b)[k] == name + [0] && off == NameStart(b, k)
    ensures 0 <= NamesStart(b) && Holds(Encoded(b), NamesStart(b) + off, name + [0])
  {
    NamesStand(b);
    NameStartExact(b, k);
    NameChunkAt(NameChunks(b), k, name);
    NameHeld(Encoded(b), NamesStart(b), NameBlob(b), off as int, name + [0]);
  }

  lemma {:induction false} FaderNameFound(b: Builder, i: nat)
    requires Encodable(b) && i < |b.faders|
    ensures 0 <= NamesStart(b) && FaderNamed(Encoded(b), b, i, NamesStart(b))
  {
    NamesStand(b);
    if b.faders[i].name != [] {
      assert NameChunks(b)[i] == FaderChunk(b.faders[i]);
      NameFound(b, i, b.faders[i].name, FaderNameOff(b, i));
    }
  }

  predicate FaderNamed(d: seq<byte>, b: Builder, i: nat, names: nat)
    requires i < |b.faders|
  {
    b.faders[i].name != [] ==> Holds(d, names + FaderNameOff(b, i), b.faders[i].name + [0])
  }

  lemma {:induction false} FaderInTable(d: seq<byte>, at: nat, b: Builder, i: nat, names: nat)
    requires Holds(d, at, Flat(FaderRows(b))) && i < |b.faders| && FaderNamed(d, b, i, names)
    ensures FaderAt(d, at + Times(Wide(b), 4, i), Wide(b), b.faders[i], names)
  {
    var rows := FaderRows(b);
    RowWidths(b);
    RowOfTable(d, at, rows, Wide(b), 4, i);
    HeldFader(d, at + Times(Wide(b), 4, i), Wide(b), b.faders[i], FaderNameOff(b, i), names);
  }

  lemma {:induction false} FaderInBlob(b: Builder, i: nat)
    requires Encodable(b) && i < |b.faders|
    ensures 0 <= NamesStart(b)
    ensures FaderAt(Encoded(b), FadersStart(b) + Times(Wide(b), 4, i), Wide(b), b.faders[i], NamesStart(b))
  {
    FaderNameFound(b, i);
    FadersStand(b);
    FaderInTable(Encoded(b), FadersStart(b), b, i, NamesStart(b));
  }

  lemma {:induction false} EncoderInTable(d: seq<byte>, at: nat, b: Builder, i: nat)
    requires Holds(d, at, Flat(EncoderRows(b))) && i < |b.encoders|
    ensures EncoderAt(d, at + 3 * i, b.encoders[i])
  {
    var rows := EncoderRows(b);
    RowWidths(b);
    FlatSize(rows[..i], 3);
    RowHeld(d, at, rows, i, 3 * i);
    HeldEncoder(d, at + 3 * i, b.encoders[i]);
  }

  lemma {:induction false} EncoderInBlob(b: Builder, i: nat)
    requires Encodable(b) && i < |b.encoders|
    ensures EncoderAt(Encoded(b), EncodersStart(b) + 3 * i, b.encoders[i])
  {
    EncodersStand(b);
    EncoderInTable(Encoded(b), EncodersStart(b), b, i);
  }

  lemma {:induction false} LedInTable(d: seq<byte>, at: nat, b: Builder, i: nat)
    requires Holds(d, at, Flat(LedRows(b))) && i < |b.leds| && |b.leds[i].colors| < 256
    ensures LedAt(d, at + Times(Wide(b), 7, i), Wide(b), b.leds[i], Cursor(b, i) as int)
  {
    var rows := LedRows(b);
    RowWidths(b);
    RowOfTable(d, at, rows, Wide(b), 7, i);
    HeldLed(d, at + Times(Wide(b), 7, i), Wide(b), b.leds[i], Cursor(b, i));
  }

  lemma {:induction false} LedFits(b: Builder, i: nat)
    requires Encodable(b) && i < |b.leds|
    ensures |b.leds[i].colors| < 256 && Cursor(b, i) as int == |ColorsOf(b.leds[..i])|
  {
    ColorsPrefix(b.leds, i);
  }

  lemma {:induction false} LedInBlob(b: Builder, i: nat)
    requires Encodable(b) && i < |b.leds|
    ensures LedAt(Encoded(b), LedsStart(b) + Times(Wide(b), 7, i), Wide(b), b.leds[i], |ColorsOf(b.leds[..i])|)
  {
    LedsStand(b);
    LedFits(b, i);
    LedInTable(Encoded(b), LedsStart(b), b, i);
  }

  predicate ColorNamed(d: seq<byte>, b: Builder, j: nat, names: nat)
    requires j < |ColorsOf(b.leds)|
  {
    Holds(d, names + NameStart(b, |b.faders| + j), ColorsOf(b.leds)[j].name + [0])
  }

  lemma {:induction false} ColorInTable(d: seq<byte>, at: nat, b: Builder, j: nat, names: nat)
    requires Holds(d, at, Flat(ColorRows(b))) && j < |ColorsOf(b.leds)|
    requires ColorNamed(d, b, j, names)
    ensures ColorAt(d, at + 3 * j, ColorsOf(b.leds)[j], names)
  {
    var rows := ColorRows(b);
    RowWidths(b);
    FlatSize(rows[..j], 3);
    RowHeld(d, at, rows, j, 3 * j);
    HeldColor(d, at + 3 * j, ColorsOf(b.leds)[j], NameStart(b, |b.faders| + j), names);
  }

  lemma {:induction false} ColorNameFound(b: Builder, j: nat)
    requires Encodable(b) && j < |ColorsOf(b.leds)|
    ensures 0 <= NamesStart(b) && ColorNamed(Encoded(b), b, j, NamesStart(b))
  {
    var k := |b.faders| + j;
    assert NameChunks(b)[k] == ColorChunks(b)[j];
    NameFound(b, k, ColorsOf(b.leds)[j].name, NameStart(b, k));
  }

  lemma {:induction false} ColorInBlob(b: Builder, j: nat)
    requires Encodable(b) && j < |ColorsOf(b.leds)|
    ensures 0 <= NamesStart(b) && ColorAt(Encoded(b), ColorsStart(b) + 3 * j, ColorsOf(b.leds)[j], NamesStart(b))
  {
    var d, at := Encoded(b), ColorsStart(b);
    NamesStand(b);
    var names := NamesStart(b);
    assert Holds(d, at, Flat(ColorRows(b))) by { ColorsStand(b); }
    assert ColorNamed(d, b, j, names) by { ColorNameFound(b, j); }
    ColorInTable(d, at, b, j, names);
  }
}
