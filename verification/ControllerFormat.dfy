/** The MDF1 blob of a controller definition: ControllerBuilder::encode in
    controller_encoder.cpp writes it, parseMidiController in mdef.cpp reads it.
    Version 1 has no channels, version 2 widens three tables by two channel bytes
    and version 3 adds a table of init messages. */
module ControllerFormat {
  import opened Bytes
  import opened Mdef

  const MAGIC: seq<byte> := [0x4D, 0x44, 0x46, 0x31]

  /** An empty name means unnamed. */
  datatype FaderSpec = FaderSpec(ccFrom: byte, ccTo: byte, name: seq<byte>, channelFrom: byte, channelTo: byte)

  datatype ColorSpec = ColorSpec(name: seq<byte>, value: byte)

  datatype LedSpec = LedSpec(
    msgType: byte, addrFrom: byte, addrTo: byte, semantic: byte, colors: seq<ColorSpec>,
    channelFrom: byte, channelTo: byte)

  datatype Builder = Builder(
    name: seq<byte>,
    midiChannel: byte,
    pads: seq<PadRange>,
    faders: seq<FaderSpec>,
    encoders: seq<EncoderRange>,
    leds: seq<LedSpec>,
    initBlobs: seq<seq<byte>>)

  // ---- what is written ---------------------------------------------------

  /** The palettes of all LED ranges, one after the other. */
  function ColorsOf(leds: seq<LedSpec>): seq<ColorSpec> {
    if leds == [] then [] else ColorsOf(leds[..|leds| - 1]) + leds[|leds| - 1].colors
  }

  predicate CountsOk(b: Builder) {
    |b.name| <= 255 && |b.pads| <= MAX_PADS && |b.faders| <= MAX_FADERS && |b.encoders| <= MAX_ENCODERS &&
    |b.leds| <= MAX_LED_RANGES && |ColorsOf(b.leds)| <= MAX_COLORS && |b.initBlobs| <= MAX_INIT_BLOBS &&
    forall i :: 0 <= i < |b.initBlobs| ==> |b.initBlobs[i]| <= MAX_INIT_BLOB_BYTES
  }

  /** The limits under which `encode` reports no error. */
  predicate Encodable(b: Builder) {
    CountsOk(b) && |NameBlob(b)| <= MAX_NAME_BLOB
  }

  predicate AnyChannelRange(b: Builder) {
    (exists i :: 0 <= i < |b.pads| && b.pads[i].channelFrom != CHANNEL_AGNOSTIC) ||
    (exists i :: 0 <= i < |b.faders| && b.faders[i].channelFrom != CHANNEL_AGNOSTIC) ||
    (exists i :: 0 <= i < |b.leds| && b.leds[i].channelFrom != CHANNEL_AGNOSTIC)
  }

  function Version(b: Builder): byte {
    if b.initBlobs != [] then 3 else if AnyChannelRange(b) then 2 else 1
  }

  predicate Wide(b: Builder) {
    Version(b) >= 2
  }

  function Header(b: Builder): seq<byte> {
    MAGIC + [Version(b), 0, b.midiChannel, |b.name| % 256, |b.pads| % 256, |b.faders| % 256, |b.encoders| % 256,
             |b.leds| % 256, |ColorsOf(b.leds)| % 256]
    + (if Version(b) == 3 then [|b.initBlobs| % 256] else [])
  }

  function ChannelBytes(wide: bool, from: byte, to: byte): seq<byte> {
    if wide then [from, to] else []
  }

  function PadRow(wide: bool, p: PadRange): seq<byte> {
    [p.noteFrom, p.noteTo] + ChannelBytes(wide, p.channelFrom, p.channelTo)
  }

  function FaderRow(wide: bool, f: FaderSpec, nameOff: u16): seq<byte> {
    [f.ccFrom, f.ccTo] + Le16(nameOff) + ChannelBytes(wide, f.channelFrom, f.channelTo)
  }

  function EncoderRow(e: EncoderRange): seq<byte> {
    [e.ccFrom, e.ccTo, e.mode]
  }

  function LedRow(wide: bool, l: LedSpec, cursor: u16): seq<byte> {
    [l.msgType, l.addrFrom, l.addrTo, l.semantic] + Le16(cursor) + [|l.colors| % 256]
    + ChannelBytes(wide, l.channelFrom, l.channelTo)
  }

  function ColorRow(c: ColorEntry): seq<byte> {
    Le16(c.nameOff) + [c.value]
  }

  function InitRow(blob: seq<byte>): seq<byte> {
    [|blob| % 256] + blob
  }

  function FaderChunk(f: FaderSpec): seq<byte> {
    if f.name == [] then [] else f.name + [0]
  }

  function FaderChunks(b: Builder): seq<seq<byte>> {
    seq(|b.faders|, i requires 0 <= i < |b.faders| => FaderChunk(b.faders[i]))
  }

  function ColorChunks(b: Builder): seq<seq<byte>> {
    var colors := ColorsOf(b.leds);
    seq(|colors|, j requires 0 <= j < |colors| => colors[j].name + [0])
  }

  function NameChunks(b: Builder): (chunks: seq<seq<byte>>)
    ensures |chunks| == |b.faders| + |ColorsOf(b.leds)|
  {
    FaderChunks(b) + ColorChunks(b)
  }

  function NameBlob(b: Builder): seq<byte> {
    Flat(NameChunks(b))
  }

  function NameStart(b: Builder, k: nat): u16
    requires k <= |NameChunks(b)|
  {
    |Flat(NameChunks(b)[..k])| % 0x1_0000
  }

  function FaderNameOff(b: Builder, i: nat): u16
    requires i < |b.faders|
  {
    if b.faders[i].name == [] then UNNAMED else NameStart(b, i)
  }

  function Cursor(b: Builder, i: nat): u16
    requires i <= |b.leds|
  {
    |ColorsOf(b.leds[..i])| % 0x1_0000
  }

  function PadRows(b: Builder): (rows: seq<seq<byte>>)
    ensures |rows| == |b.pads|
  {
    seq(|b.pads|, i requires 0 <= i < |b.pads| => PadRow(Wide(b), b.pads[i]))
  }

  function FaderRows(b: Builder): (rows: seq<seq<byte>>)
    ensures |rows| == |b.faders|
  {
    seq(|b.faders|, i requires 0 <= i < |b.faders| => FaderRow(Wide(b), b.faders[i], FaderNameOff(b, i)))
  }

  function EncoderRows(b: Builder): (rows: seq<seq<byte>>)
    ensures |rows| == |b.encoders|
  {
    seq(|b.encoders|, i requires 0 <= i < |b.encoders| => EncoderRow(b.encoders[i]))
  }

  function LedRows(b: Builder): (rows: seq<seq<byte>>)
    ensures |rows| == |b.leds|
  {
    seq(|b.leds|, i requires 0 <= i < |b.leds| => LedRow(Wide(b), b.leds[i], Cursor(b, i)))
  }

  function ColorRows(b: Builder): (rows: seq<seq<byte>>)
    ensures |rows| == |ColorsOf(b.leds)|
  {
    var colors := DescribedColors(b);
    seq(|colors|, j requires 0 <= j < |colors| => ColorRow(colors[j]))
  }

  function InitRows(b: Builder): (rows: seq<seq<byte>>)
    ensures |rows| == |b.initBlobs|
  {
    seq(|b.initBlobs|, i requires 0 <= i < |b.initBlobs| => InitRow(b.initBlobs[i]))
  }

  function Parts(b: Builder): seq<seq<byte>> {
    [Header(b), b.name, Flat(PadRows(b)), Flat(FaderRows(b)), Flat(EncoderRows(b)), Flat(LedRows(b)),
     Flat(ColorRows(b)), Flat(InitRows(b)), NameBlob(b)]
  }

  function Encoded(b: Builder): seq<byte> {
    Flat(Parts(b))
  }

  // ---- what a builder describes ------------------------------------------

  function Channel(wide: bool, c: byte): byte {
    if wide then c else CHANNEL_AGNOSTIC
  }

  function DescribedPad(wide: bool, p: PadRange): PadRange {
    p.(channelFrom := Channel(wide, p.channelFrom), channelTo := Channel(wide, p.channelTo))
  }

  function DescribedFader(wide: bool, f: FaderSpec, nameOff: u16): FaderRange {
    FaderRange(f.ccFrom, f.ccTo, nameOff, Channel(wide, f.channelFrom), Channel(wide, f.channelTo))
  }

  function DescribedLed(wide: bool, l: LedSpec, cursor: u16): LedRange {
    LedRange(l.msgType, l.addrFrom, l.addrTo, l.semantic, cursor, |l.colors| % 256,
             Channel(wide, l.channelFrom), Channel(wide, l.channelTo))
  }

  function DescribedColors(b: Builder): (colors: seq<ColorEntry>)
    ensures |colors| == |ColorsOf(b.leds)|
  {
    var colors := ColorsOf(b.leds);
    seq(|colors|, j requires 0 <= j < |colors| => ColorEntry(NameStart(b, |b.faders| + j), colors[j].value))
  }

  function DescribedPads(b: Builder): seq<PadRange> {
    seq(|b.pads|, i requires 0 <= i < |b.pads| => DescribedPad(Wide(b), b.pads[i]))
  }

  function DescribedFaders(b: Builder): seq<FaderRange> {
    seq(|b.faders|, i requires 0 <= i < |b.faders| => DescribedFader(Wide(b), b.faders[i], FaderNameOff(b, i)))
  }

  function DescribedLeds(b: Builder): seq<LedRange> {
    seq(|b.leds|, i requires 0 <= i < |b.leds| => DescribedLed(Wide(b), b.leds[i], Cursor(b, i)))
  }

  /** The builder's tables with names and palettes replaced by offsets; version 1
      does not carry channels. */
  function Described(b: Builder): Controller {
    Controller(b.midiChannel, DescribedPads(b), DescribedFaders(b), b.encoders, DescribedLeds(b),
               DescribedColors(b), b.initBlobs, NameBlob(b))
  }

  predicate PadValuesOk(p: PadRange, wide: bool) {
    AddressesOk(p.noteFrom, p.noteTo) && (wide ==> ChannelsOk(p.channelFrom, p.channelTo))
  }

  predicate FaderValuesOk(f: FaderSpec, wide: bool) {
    AddressesOk(f.ccFrom, f.ccTo) && (wide ==> ChannelsOk(f.channelFrom, f.channelTo))
  }

  predicate LedValuesOk(l: LedSpec, wide: bool) {
    l.msgType <= CC && AddressesOk(l.addrFrom, l.addrTo) && l.semantic <= LAST_SEMANTIC &&
    (wide ==> ChannelsOk(l.channelFrom, l.channelTo))
  }

  /** Every value the builder holds is one the format allows. */
  predicate ValuesOk(b: Builder) {
    b.midiChannel <= 16 &&
    (forall i :: 0 <= i < |b.pads| ==> PadValuesOk(b.pads[i], Wide(b))) &&
    (forall i :: 0 <= i < |b.faders| ==> FaderValuesOk(b.faders[i], Wide(b))) &&
    (forall i :: 0 <= i < |b.encoders| ==> EncoderOk(b.encoders[i])) &&
    (forall i :: 0 <= i < |b.leds| ==> LedValuesOk(b.leds[i], Wide(b))) &&
    (forall j :: 0 <= j < |ColorsOf(b.leds)| ==> ColorsOf(b.leds)[j].value <= 127)
  }

  // ---- what is read ------------------------------------------------------

  predicate HeaderOk(d: seq<byte>) {
    |d| >= 13 && d[..4] == MAGIC && 1 <= d[4] <= 3 && d[5] == 0 && d[6] <= 16 &&
    d[8] <= MAX_PADS && d[9] <= MAX_FADERS && d[10] <= MAX_ENCODERS && d[11] <= MAX_LED_RANGES &&
    d[12] <= MAX_COLORS && (d[4] == 3 ==> |d| >= 14 && d[13] <= MAX_INIT_BLOBS)
  }

  function PadWidth(wide: bool): nat {
    if wide then 4 else 2
  }

  function FaderWidth(wide: bool): nat {
    if wide then 6 else 4
  }

  function LedWidth(wide: bool): nat {
    if wide then 9 else 7
  }

  predicate IsWide(d: seq<byte>)
    requires HeaderOk(d)
  {
    d[4] >= 2
  }

  function PadTable(d: seq<byte>): nat
    requires HeaderOk(d)
  {
    (if d[4] == 3 then 14 else 13) + d[7] as int
  }

  function FaderTable(d: seq<byte>): nat
    requires HeaderOk(d)
  {
    PadTable(d) + PadWidth(IsWide(d)) * d[8] as int
  }

  function EncoderTable(d: seq<byte>): nat
    requires HeaderOk(d)
  {
    FaderTable(d) + FaderWidth(IsWide(d)) * d[9] as int
  }

  function LedTable(d: seq<byte>): nat
    requires HeaderOk(d)
  {
    EncoderTable(d) + 3 * d[10] as int
  }

  function ColorTable(d: seq<byte>): nat
    requires HeaderOk(d)
  {
    LedTable(d) + LedWidth(IsWide(d)) * d[11] as int
  }

  function InitTable(d: seq<byte>): nat
    requires HeaderOk(d)
  {
    ColorTable(d) + 3 * d[12] as int
  }

  function InitCount(d: seq<byte>): nat
    requires HeaderOk(d)
  {
    if d[4] == 3 then d[13] else 0
  }

  datatype Inits = Inits(blobs: seq<seq<byte>>, end: nat)

  /** The first `n` length-prefixed init messages from `at` on. */
  function InitsFrom(d: seq<byte>, at: nat, n: nat): (r: Option<Inits>)
    ensures r.Some? ==> |r.value.blobs| == n && at <= r.value.end
  {
    if n == 0 then Some(Inits([], at)) else
      match InitsFrom(d, at, n - 1)
      case None => None
      case Some(t) => OneMoreInit(d, t)
  }

  function OneMoreInit(d: seq<byte>, t: Inits): (r: Option<Inits>)
    ensures r.Some? ==> |r.value.blobs| == |t.blobs| + 1 && t.end <= r.value.end
  {
    if |d| < t.end + 1 || d[t.end] > MAX_INIT_BLOB_BYTES || |d| < t.end + 1 + d[t.end] as int then None
    else
      var next := t.end + 1 + d[t.end] as int;
      Some(Inits(t.blobs + [d[t.end + 1..next]], next))
  }

  predicate SizesOk(d: seq<byte>)
    requires HeaderOk(d)
  {
    var inits := InitsFrom(d, InitTable(d), InitCount(d));
    inits.Some? && inits.value.end <= |d| <= inits.value.end + MAX_NAME_BLOB
  }

  function PadOf(row: seq<byte>, wide: bool): PadRange
    requires |row| == PadWidth(wide)
  {
    PadRange(row[0], row[1], if wide then row[2] else CHANNEL_AGNOSTIC, if wide then row[3] else CHANNEL_AGNOSTIC)
  }

  function FaderOf(row: seq<byte>, wide: bool): FaderRange
    requires |row| == FaderWidth(wide)
  {
    FaderRange(row[0], row[1], U16At(row, 2),
               if wide then row[4] else CHANNEL_AGNOSTIC, if wide then row[5] else CHANNEL_AGNOSTIC)
  }

  function EncoderOf(row: seq<byte>): EncoderRange
    requires |row| == 3
  {
    EncoderRange(row[0], row[1], row[2])
  }

  function LedOf(row: seq<byte>, wide: bool): LedRange
    requires |row| == LedWidth(wide)
  {
    LedRange(row[0], row[1], row[2], row[3], U16At(row, 4), row[6],
             if wide then row[7] else CHANNEL_AGNOSTIC, if wide then row[8] else CHANNEL_AGNOSTIC)
  }

  function ColorOf(row: seq<byte>): ColorEntry
    requires |row| == 3
  {
    ColorEntry(U16At(row, 0), row[2])
  }

  function PadsOf(rows: seq<seq<byte>>, wide: bool): seq<PadRange>
    requires AllWide(rows, PadWidth(wide))
  {
    seq(|rows|, i requires 0 <= i < |rows| => PadOf(rows[i], wide))
  }

  function FadersOf(rows: seq<seq<byte>>, wide: bool): seq<FaderRange>
    requires AllWide(rows, FaderWidth(wide))
  {
    seq(|rows|, i requires 0 <= i < |rows| => FaderOf(rows[i], wide))
  }

  function EncodersOf(rows: seq<seq<byte>>): seq<EncoderRange>
    requires AllWide(rows, 3)
  {
    seq(|rows|, i requires 0 <= i < |rows| => EncoderOf(rows[i]))
  }

  function LedsOf(rows: seq<seq<byte>>, wide: bool): seq<LedRange>
    requires AllWide(rows, LedWidth(wide))
  {
    seq(|rows|, i requires 0 <= i < |rows| => LedOf(rows[i], wide))
  }

  function ColorsFrom(rows: seq<seq<byte>>): seq<ColorEntry>
    requires AllWide(rows, 3)
  {
    seq(|rows|, i requires 0 <= i < |rows| => ColorOf(rows[i]))
  }

  function Decoded(d: seq<byte>): Controller
    requires HeaderOk(d) && SizesOk(d)
  {
    var inits := InitsFrom(d, InitTable(d), InitCount(d)).value;
    var wide := IsWide(d);
    Controller(
      d[6],
      PadsOf(Rows(d, PadTable(d), PadWidth(wide), d[8] as int), wide),
      FadersOf(Rows(d, FaderTable(d), FaderWidth(wide), d[9] as int), wide),
      EncodersOf(Rows(d, EncoderTable(d), 3, d[10] as int)),
      LedsOf(Rows(d, LedTable(d), LedWidth(wide), d[11] as int), wide),
      ColorsFrom(Rows(d, ColorTable(d), 3, d[12] as int)),
      inits.blobs, d[inits.end..])
  }

  ghost predicate Accepted(d: seq<byte>) {
    HeaderOk(d) && SizesOk(d) && Wellformed(Decoded(d))
  }

  // ---- round trip --------------------------------------------------------

  lemma PadRowReadsBack(wide: bool, p: PadRange)
    ensures |PadRow(wide, p)| == PadWidth(wide) && PadOf(PadRow(wide, p), wide) == DescribedPad(wide, p)
  {
  }

  lemma FaderRowReadsBack(wide: bool, f: FaderSpec, off: u16)
    ensures |FaderRow(wide, f, off)| == FaderWidth(wide)
    ensures FaderOf(FaderRow(wide, f, off), wide) == DescribedFader(wide, f, off)
  {
    assert FaderRow(wide, f, off)[2..4] == Le16(off);
    Le16RoundTrip(FaderRow(wide, f, off), 2, off);
  }

  lemma LedRowReadsBack(wide: bool, l: LedSpec, cursor: u16)
    ensures |LedRow(wide, l, cursor)| == LedWidth(wide)
    ensures LedOf(LedRow(wide, l, cursor), wide) == DescribedLed(wide, l, cursor)
  {
    assert LedRow(wide, l, cursor)[4..6] == Le16(cursor);
    Le16RoundTrip(LedRow(wide, l, cursor), 4, cursor);
  }

  lemma ColorRowReadsBack(c: ColorEntry)
    ensures |ColorRow(c)| == 3 && ColorOf(ColorRow(c)) == c
  {
    assert ColorRow(c)[0..2] == Le16(c.nameOff);
    Le16RoundTrip(ColorRow(c), 0, c.nameOff);
  }

  lemma PadRowsReadBack(b: Builder)
    ensures AllWide(PadRows(b), PadWidth(Wide(b))) && PadsOf(PadRows(b), Wide(b)) == DescribedPads(b)
  {
    forall i | 0 <= i < |b.pads|
      ensures |PadRows(b)[i]| == PadWidth(Wide(b)) && PadOf(PadRows(b)[i], Wide(b)) == DescribedPads(b)[i] {
      PadRowReadsBack(Wide(b), b.pads[i]);
    }
  }

  lemma FaderRowsReadBack(b: Builder)
    ensures AllWide(FaderRows(b), FaderWidth(Wide(b))) && FadersOf(FaderRows(b), Wide(b)) == DescribedFaders(b)
  {
    forall i | 0 <= i < |b.faders|
      ensures |FaderRows(b)[i]| == FaderWidth(Wide(b)) && FaderOf(FaderRows(b)[i], Wide(b)) == DescribedFaders(b)[i] {
      FaderRowReadsBack(Wide(b), b.faders[i], FaderNameOff(b, i));
    }
  }

  lemma EncoderRowsReadBack(b: Builder)
    ensures AllWide(EncoderRows(b), 3) && EncodersOf(EncoderRows(b)) == b.encoders
  {
  }

  lemma LedRowsReadBack(b: Builder)
    ensures AllWide(LedRows(b), LedWidth(Wide(b))) && LedsOf(LedRows(b), Wide(b)) == DescribedLeds(b)
  {
    forall i | 0 <= i < |b.leds|
      ensures |LedRows(b)[i]| == LedWidth(Wide(b)) && LedOf(LedRows(b)[i], Wide(b)) == DescribedLeds(b)[i] {
      LedRowReadsBack(Wide(b), b.leds[i], Cursor(b, i));
    }
  }

  lemma ColorRowsReadBack(b: Builder)
    ensures AllWide(ColorRows(b), 3) && ColorsFrom(ColorRows(b)) == DescribedColors(b)
  {
    forall j | 0 <= j < |DescribedColors(b)|
      ensures |ColorRows(b)[j]| == 3 && ColorOf(ColorRows(b)[j]) == DescribedColors(b)[j] {
      ColorRowReadsBack(DescribedColors(b)[j]);
    }
  }

  predicate AreInitRows(rows: seq<seq<byte>>, blobs: seq<seq<byte>>) {
    |rows| == |blobs| &&
    forall i :: 0 <= i < |blobs| ==> |blobs[i]| <= MAX_INIT_BLOB_BYTES && rows[i] == InitRow(blobs[i])
  }

  /** The init table reads back, whatever follows it. */
  lemma {:induction false} InitsReadBack(
      d: seq<byte>, at: nat, blobs: seq<seq<byte>>, rows: seq<seq<byte>>, table: seq<byte>, end: nat)
    requires AreInitRows(rows, blobs) && table == Flat(rows) && Holds(d, at, table) && end == at + |table|
    ensures InitsFrom(d, at, |blobs|) == Some(Inits(blobs, end))
  {
    var n := |blobs|;
    if n == 0 {
    } else {
      var front, last := Flat(rows[..n - 1]), InitRow(blobs[n - 1]);
      assert table == front + last;
      HoldsParts(d, at, front, last);
      var mid := at + |front|;
      InitsReadBack(d, at, blobs[..n - 1], rows[..n - 1], front, mid);
      OneInitReadsBack(d, Inits(blobs[..n - 1], mid), blobs[n - 1], blobs, end);
    }
  }

  lemma OneInitReadsBack(d: seq<byte>, t: Inits, blob: seq<byte>, all: seq<seq<byte>>, end: nat)
    requires |blob| <= MAX_INIT_BLOB_BYTES && Holds(d, t.end, InitRow(blob))
    requires all == t.blobs + [blob] && end == t.end + 1 + |blob|
    ensures OneMoreInit(d, t) == Some(Inits(all, end))
  {
    assert d[t.end] == InitRow(blob)[0];
    assert d[t.end + 1..t.end + 1 + |blob|] == InitRow(blob)[1..] == blob;
  }

  lemma HeaderReadsBack(b: Builder, rest: seq<byte>)
    requires Encodable(b)
    ensures var d := Header(b) + rest;
            (HeaderOk(d) <==> b.midiChannel <= 16) &&
            (HeaderOk(d) ==> CountsAre(d, b) && PadTable(d) == |Header(b)| + |b.name|)
  {
    HeaderFields(b);
    HeaderShared(Header(b), rest);
  }

  lemma HeaderShared(h: seq<byte>, rest: seq<byte>)
    requires |h| >= 4
    ensures (h + rest)[..4] == h[..4] && forall i :: 0 <= i < |h| ==> (h + rest)[i] == h[i]
  {
  }

  lemma HeaderFields(b: Builder)
    requires Encodable(b)
    ensures var h := Header(b);
            |h| == (if Version(b) == 3 then 14 else 13) && h[..4] == MAGIC &&
            h[4] == Version(b) && h[5] == 0 && h[6] == b.midiChannel && h[7] == |b.name| && h[8] == |b.pads| &&
            h[9] == |b.faders| && h[10] == |b.encoders| && h[11] == |b.leds| && h[12] == |ColorsOf(b.leds)| &&
            (Version(b) == 3 ==> h[13] == |b.initBlobs|)
  {
    assert Header(b)[..4] == MAGIC;
  }

  predicate CountsAre(d: seq<byte>, b: Builder)
    requires HeaderOk(d)
  {
    IsWide(d) == Wide(b) && InitCount(d) == |b.initBlobs| && d[6] == b.midiChannel && d[8] == |b.pads| &&
    d[9] == |b.faders| && d[10] == |b.encoders| && d[11] == |b.leds| && d[12] == |ColorsOf(b.leds)|
  }

  predicate IsLayout(parts: seq<seq<byte>>, b: Builder) {
    |parts| == 9 && parts[0] == Header(b) && parts[1] == b.name && parts[2] == Flat(PadRows(b)) &&
    parts[3] == Flat(FaderRows(b)) && parts[4] == Flat(EncoderRows(b)) && parts[5] == Flat(LedRows(b)) &&
    parts[6] == Flat(ColorRows(b)) && parts[7] == Flat(InitRows(b)) && parts[8] == NameBlob(b)
  }

  lemma PadsReadBack(b: Builder, parts: seq<seq<byte>>)
    requires IsLayout(parts, b)
    ensures var d, at, w := Flat(parts), PartStart(parts, 2), PadWidth(Wide(b));
            PartStart(parts, 3) == at + w * |b.pads| <= |d| &&
            PadsOf(Rows(d, at, w, |b.pads|), Wide(b)) == DescribedPads(b)
  {
    PadRowsReadBack(b);
    TablePart(parts, 2, PadRows(b), PadWidth(Wide(b)));
  }

  lemma FadersReadBack(b: Builder, parts: seq<seq<byte>>)
    requires IsLayout(parts, b)
    ensures var d, at, w := Flat(parts), PartStart(parts, 3), FaderWidth(Wide(b));
            PartStart(parts, 4) == at + w * |b.faders| <= |d| &&
            FadersOf(Rows(d, at, w, |b.faders|), Wide(b)) == DescribedFaders(b)
  {
    FaderRowsReadBack(b);
    TablePart(parts, 3, FaderRows(b), FaderWidth(Wide(b)));
  }

  lemma EncodersReadBack(b: Builder, parts: seq<seq<byte>>)
    requires IsLayout(parts, b)
    ensures var d, at := Flat(parts), PartStart(parts, 4);
            PartStart(parts, 5) == at + 3 * |b.encoders| <= |d| &&
            EncodersOf(Rows(d, at, 3, |b.encoders|)) == b.encoders
  {
    EncoderRowsReadBack(b);
    TablePart(parts, 4, EncoderRows(b), 3);
  }

  lemma LedsReadBack(b: Builder, parts: seq<seq<byte>>)
    requires IsLayout(parts, b)
    ensures var d, at, w := Flat(parts), PartStart(parts, 5), LedWidth(Wide(b));
            PartStart(parts, 6) == at + w * |b.leds| <= |d| &&
            LedsOf(Rows(d, at, w, |b.leds|), Wide(b)) == DescribedLeds(b)
  {
    LedRowsReadBack(b);
    TablePart(parts, 5, LedRows(b), LedWidth(Wide(b)));
  }

  lemma ColorsReadBack(b: Builder, parts: seq<seq<byte>>)
    requires IsLayout(parts, b)
    ensures var d, at, n := Flat(parts), PartStart(parts, 6), |ColorsOf(b.leds)|;
            PartStart(parts, 7) == at + 3 * n <= |d| && ColorsFrom(Rows(d, at, 3, n)) == DescribedColors(b)
  {
    ColorRowsReadBack(b);
    TablePart(parts, 6, ColorRows(b), 3);
  }

  lemma NamesReadBack(b: Builder, parts: seq<seq<byte>>)
    requires IsLayout(parts, b)
    ensures PartStart(parts, 8) + |NameBlob(b)| == |Flat(parts)| && Flat(parts)[PartStart(parts, 8)..] == NameBlob(b)
  {
    LastPartAt(parts, NameBlob(b));
  }

  lemma InitTableReadsBack(parts: seq<seq<byte>>, rows: seq<seq<byte>>, blobs: seq<seq<byte>>)
    requires |parts| == 9 && parts[7] == Flat(rows) && AreInitRows(rows, blobs)
    ensures InitsFrom(Flat(parts), PartStart(parts, 7), |blobs|) == Some(Inits(blobs, PartStart(parts, 8)))
  {
    PartAt(parts, 7, parts[7]);
    InitsReadBack(Flat(parts), PartStart(parts, 7), blobs, rows, parts[7], PartStart(parts, 8));
  }

  lemma FrontStarts(b: Builder, parts: seq<seq<byte>>)
    requires IsLayout(parts, b)
    ensures PartStart(parts, 2) == |Header(b)| + |b.name|
    ensures PartStart(parts, 3) == PartStart(parts, 2) + PadWidth(Wide(b)) * |b.pads|
    ensures PartStart(parts, 4) == PartStart(parts, 3) + FaderWidth(Wide(b)) * |b.faders|
  {
    RowWidths(b);
    PartAt(parts, 0, parts[0]);
    PartAt(parts, 1, parts[1]);
    TableSize(parts, 2, PadRows(b), PadWidth(Wide(b)));
    TableSize(parts, 3, FaderRows(b), FaderWidth(Wide(b)));
  }

  lemma BackStarts(b: Builder, parts: seq<seq<byte>>)
    requires IsLayout(parts, b)
    ensures PartStart(parts, 5) == PartStart(parts, 4) + 3 * |b.encoders|
    ensures PartStart(parts, 6) == PartStart(parts, 5) + LedWidth(Wide(b)) * |b.leds|
    ensures PartStart(parts, 7) == PartStart(parts, 6) + 3 * |ColorsOf(b.leds)|
  {
    RowWidths(b);
    TableSize(parts, 4, EncoderRows(b), 3);
    TableSize(parts, 5, LedRows(b), LedWidth(Wide(b)));
    TableSize(parts, 6, ColorRows(b), 3);
  }

  lemma RowWidths(b: Builder)
    ensures AllWide(PadRows(b), PadWidth(Wide(b))) && AllWide(FaderRows(b), FaderWidth(Wide(b)))
    ensures AllWide(EncoderRows(b), 3) && AllWide(LedRows(b), LedWidth(Wide(b))) && AllWide(ColorRows(b), 3)
  {
  }

  lemma HeaderIn(b: Builder, parts: seq<seq<byte>>)
    requires Encodable(b) && IsLayout(parts, b)
    ensures var d := Flat(parts);
            (HeaderOk(d) <==> b.midiChannel <= 16) &&
            (HeaderOk(d) ==> CountsAre(d, b) && PadTable(d) == |Header(b)| + |b.name|)
  {
    FirstPart(parts);
    HeaderReadsBack(b, Flat(parts[1..]));
  }

  /** Where the tables of an encoded controller lie. */
  lemma Layout(b: Builder, parts: seq<seq<byte>>)
    requires Encodable(b) && IsLayout(parts, b)
    ensures var d := Flat(parts);
            (HeaderOk(d) <==> b.midiChannel <= 16) &&
            (HeaderOk(d) ==>
              CountsAre(d, b) && PadTable(d) == PartStart(parts, 2) && FaderTable(d) == PartStart(parts, 3) &&
              EncoderTable(d) == PartStart(parts, 4) && LedTable(d) == PartStart(parts, 5) &&
              ColorTable(d) == PartStart(parts, 6) && InitTable(d) == PartStart(parts, 7))
  {
    HeaderIn(b, parts);
    FrontStarts(b, parts);
    BackStarts(b, parts);
  }

  lemma DecodedIsDescribed(b: Builder, parts: seq<seq<byte>>)
    requires Encodable(b) && b.midiChannel <= 16 && IsLayout(parts, b)
    ensures HeaderOk(Flat(parts)) && SizesOk(Flat(parts)) && Decoded(Flat(parts)) == Described(b)
  {
    Layout(b, parts);
    PadsReadBack(b, parts);
    FadersReadBack(b, parts);
    EncodersReadBack(b, parts);
    LedsReadBack(b, parts);
    ColorsReadBack(b, parts);
    NamesReadBack(b, parts);
    InitTableReadsBack(parts, InitRows(b), b.initBlobs);
  }

  lemma {:induction false} ColorsPrefix(leds: seq<LedSpec>, i: nat)
    requires i < |leds|
    ensures var start := |ColorsOf(leds[..i])|;
            |ColorsOf(leds[..i + 1])| == start + |leds[i].colors| &&
            Holds(ColorsOf(leds), start, leds[i].colors)
  {
    var n := |leds| - 1;
    assert leds[..i + 1][..i] == leds[..i];
    if i < n {
      ColorsPrefix(leds[..n], i);
      assert leds[..n][..i] == leds[..i] && leds[..n][..i + 1] == leds[..i + 1];
      var start := |ColorsOf(leds[..i])|;
      assert ColorsOf(leds)[start..start + |leds[i].colors|]
          == ColorsOf(leds[..n])[start..start + |leds[i].colors|];
    } else {
      assert leds[..i + 1] == leds;
    }
  }

  lemma NameStartExact(b: Builder, k: nat)
    requires Encodable(b) && k < |NameChunks(b)|
    ensures NameStart(b, k) == |Flat(NameChunks(b)[..k])|
  {
    FlatRow(NameChunks(b), k);
  }

  lemma FaderNameInBlob(b: Builder, i: nat)
    requires Encodable(b) && i < |b.faders| && b.faders[i].name != []
    ensures NameOk(FaderNameOff(b, i), NameBlob(b))
  {
    NameStartExact(b, i);
    assert NameChunks(b)[i] == FaderChunk(b.faders[i]);
    NameChunkAt(NameChunks(b), i, b.faders[i].name);
  }

  /** The table entry of a fader leads to this name, or to none for an empty one. */
  predicate CarriesFaderName(f: FaderRange, nameBlob: seq<byte>, name: seq<byte>) {
    if name == [] then f.nameOff == UNNAMED
    else f.nameOff != UNNAMED && f.nameOff <= |nameBlob| && CStringAt(nameBlob, f.nameOff) == name
  }

  lemma FaderNameReadsBack(b: Builder, i: nat)
    requires Encodable(b) && i < |b.faders| && NulFree(b.faders[i].name)
    ensures CarriesFaderName(DescribedFaders(b)[i], NameBlob(b), b.faders[i].name)
  {
    if b.faders[i].name != [] {
      FaderNameInBlob(b, i);
      NameStartExact(b, i);
      assert NameChunks(b)[i] == FaderChunk(b.faders[i]);
      NameChunkAt(NameChunks(b), i, b.faders[i].name);
      NameReadsBack(NameBlob(b), NameStart(b, i), b.faders[i].name);
    }
  }

  /** Every name a fader or a colour was given is the C string its table entry
      leads to. */
  predicate NamesCarried(c: Controller, b: Builder) {
    |c.faders| == |b.faders| &&
    (forall i :: 0 <= i < |b.faders| ==> CarriesFaderName(c.faders[i], c.nameBlob, b.faders[i].name)) &&
    Carries(c.colors, c.nameBlob, ColorsOf(b.leds))
  }

  predicate NulFreeNames(b: Builder) {
    (forall i :: 0 <= i < |b.faders| ==> NulFree(b.faders[i].name)) && NamesNulFree(ColorsOf(b.leds))
  }

  lemma DescribedNames(b: Builder)
    requires Encodable(b) && NulFreeNames(b)
    ensures NamesCarried(Described(b), b)
  {
    forall i | 0 <= i < |b.faders|
      ensures CarriesFaderName(DescribedFaders(b)[i], NameBlob(b), b.faders[i].name) {
      FaderNameReadsBack(b, i);
    }
    ColorsCarried(b);
  }

  /** Colour `j`'s name starts at its offset, NUL-terminated. */
  lemma ColorNameInBlob(b: Builder, j: nat)
    requires Encodable(b) && j < |ColorsOf(b.leds)|
    ensures var off, name, blob := NameStart(b, |b.faders| + j), ColorsOf(b.leds)[j].name, NameBlob(b);
            NameOk(off, blob) && off + |name| < |blob| && blob[off..off + |name| + 1] == name + [0]
  {
    var k := |b.faders| + j;
    NameStartExact(b, k);
    assert NameChunks(b)[k] == ColorChunks(b)[j];
    NameChunkAt(NameChunks(b), k, ColorsOf(b.leds)[j].name);
  }

  lemma SpanCounts(b: Builder, i: nat)
    requires Encodable(b) && i < |b.leds|
    ensures DescribedLeds(b)[i].colorOffset == |ColorsOf(b.leds[..i])|
    ensures DescribedLeds(b)[i].colorCount == |b.leds[i].colors|
  {
    ColorsPrefix(b.leds, i);
    var start, n := |ColorsOf(b.leds[..i])|, |b.leds[i].colors|;
    assert start + n <= |ColorsOf(b.leds)| <= MAX_COLORS;
    assert Cursor(b, i) == start && n % 256 == n;
  }

  /** Where the palette of LED range `i` lies among all colours. */
  lemma PaletteSpan(b: Builder, i: nat)
    requires Encodable(b) && i < |b.leds|
    ensures var l, colors := DescribedLeds(b)[i], b.leds[i].colors;
            l.colorOffset == |ColorsOf(b.leds[..i])| && l.colorCount == |colors| &&
            Holds(ColorsOf(b.leds), l.colorOffset, colors)
  {
    SpanCounts(b, i);
    ColorsPrefix(b.leds, i);
  }

  lemma LedDescribed(b: Builder, i: nat)
    requires Encodable(b) && i < |b.leds|
    ensures LedOk(DescribedLeds(b)[i], |ColorsOf(b.leds)|) <==> LedValuesOk(b.leds[i], Wide(b))
  {
    PaletteSpan(b, i);
  }

  lemma PadsWellformed(b: Builder)
    ensures (forall i :: 0 <= i < |b.pads| ==> PadOk(DescribedPads(b)[i])) <==>
            (forall i :: 0 <= i < |b.pads| ==> PadValuesOk(b.pads[i], Wide(b)))
  {
    assert forall i :: 0 <= i < |b.pads| ==> (PadOk(DescribedPads(b)[i]) <==> PadValuesOk(b.pads[i], Wide(b)));
  }

  lemma FadersWellformed(b: Builder)
    requires Encodable(b)
    ensures (forall i :: 0 <= i < |b.faders| ==> FaderOk(DescribedFaders(b)[i], NameBlob(b))) <==>
            (forall i :: 0 <= i < |b.faders| ==> FaderValuesOk(b.faders[i], Wide(b)))
  {
    forall i | 0 <= i < |b.faders|
      ensures FaderOk(DescribedFaders(b)[i], NameBlob(b)) <==> FaderValuesOk(b.faders[i], Wide(b)) {
      if b.faders[i].name != [] { FaderNameInBlob(b, i); }
    }
  }

  lemma LedsWellformed(b: Builder)
    requires Encodable(b)
    ensures (forall i :: 0 <= i < |b.leds| ==> LedOk(DescribedLeds(b)[i], |ColorsOf(b.leds)|)) <==>
            (forall i :: 0 <= i < |b.leds| ==> LedValuesOk(b.leds[i], Wide(b)))
  {
    forall i | 0 <= i < |b.leds|
      ensures LedOk(DescribedLeds(b)[i], |ColorsOf(b.leds)|) <==> LedValuesOk(b.leds[i], Wide(b)) {
      LedDescribed(b, i);
    }
  }

  lemma ColorsWellformed(b: Builder)
    requires Encodable(b)
    ensures (forall j :: 0 <= j < |ColorsOf(b.leds)| ==> ColorOk(DescribedColors(b)[j], NameBlob(b))) <==>
            (forall j :: 0 <= j < |ColorsOf(b.leds)| ==> ColorsOf(b.leds)[j].value <= 127)
  {
    forall j | 0 <= j < |ColorsOf(b.leds)|
      ensures ColorOk(DescribedColors(b)[j], NameBlob(b)) <==> ColorsOf(b.leds)[j].value <= 127 {
      ColorNameInBlob(b, j);
    }
  }

  lemma DescribedWellformed(b: Builder)
    requires Encodable(b)
    ensures Wellformed(Described(b)) && b.midiChannel <= 16 <==> ValuesOk(b)
  {
    PadsWellformed(b);
    FadersWellformed(b);
    LedsWellformed(b);
    ColorsWellformed(b);
  }

  lemma ColorsUpTo(leds: seq<LedSpec>, i: nat)
    requires i <= |leds|
    ensures |ColorsOf(leds[..i])| <= |ColorsOf(leds)|
  {
    if i == |leds| {
      assert leds[..i] == leds;
    } else {
      ColorsPrefix(leds, i);
    }
  }

  /** What `encode` produces without error is accepted exactly when the values the
      builder holds are allowed ones, and then reads back as described, with the
      names it was given. */
  lemma RoundTrip(b: Builder)
    requires Encodable(b)
    ensures Accepted(Encoded(b)) <==> ValuesOk(b)
    ensures ValuesOk(b) ==> Decoded(Encoded(b)) == Described(b)
    ensures ValuesOk(b) && NulFreeNames(b) ==> NamesCarried(Decoded(Encoded(b)), b)
  {
    TablesRoundTrip(b);
    if NulFreeNames(b) { DescribedNames(b); }
  }

  lemma FittingReadsBack(b: Builder)
    requires Encodable(b) && b.midiChannel <= 16
    ensures HeaderOk(Encoded(b)) && SizesOk(Encoded(b)) && Decoded(Encoded(b)) == Described(b)
  {
    DecodedIsDescribed(b, Parts(b));
  }

  lemma WrongChannelRejected(b: Builder)
    requires Encodable(b) && b.midiChannel > 16
    ensures !HeaderOk(Encoded(b))
  {
    HeaderIn(b, Parts(b));
  }

  lemma TablesRoundTrip(b: Builder)
    requires Encodable(b)
    ensures Accepted(Encoded(b)) <==> ValuesOk(b)
    ensures ValuesOk(b) ==> Decoded(Encoded(b)) == Described(b)
  {
    DescribedWellformed(b);
    if b.midiChannel <= 16 { FittingReadsBack(b); } else { WrongChannelRejected(b); }
  }

  /** No channel is lost: with consistent channels the chosen version carries them all. */
  lemma ChannelsSurvive(b: Builder)
    requires forall i :: 0 <= i < |b.pads| ==> ChannelsOk(b.pads[i].channelFrom, b.pads[i].channelTo)
    requires forall i :: 0 <= i < |b.faders| ==> ChannelsOk(b.faders[i].channelFrom, b.faders[i].channelTo)
    requires forall i :: 0 <= i < |b.leds| ==> ChannelsOk(b.leds[i].channelFrom, b.leds[i].channelTo)
    ensures Described(b).pads == b.pads
    ensures forall i :: 0 <= i < |b.faders| ==>
              Described(b).faders[i].channelFrom == b.faders[i].channelFrom &&
              Described(b).faders[i].channelTo == b.faders[i].channelTo
    ensures forall i :: 0 <= i < |b.leds| ==>
              Described(b).leds[i].channelFrom == b.leds[i].channelFrom &&
              Described(b).leds[i].channelTo == b.leds[i].channelTo
  {
    forall i | 0 <= i < |b.pads| ensures Described(b).pads[i] == b.pads[i] {
      assert !Wide(b) ==> b.pads[i].channelFrom == CHANNEL_AGNOSTIC;
    }
  }

  /** Value of the first colour called `name`. */
  predicate FirstNamed(colors: seq<ColorSpec>, name: seq<byte>, k: nat) {
    k < |colors| && colors[k].name == name && forall j :: 0 <= j < k ==> colors[j].name != name
  }

  predicate NamesNulFree(colors: seq<ColorSpec>) {
    forall j :: 0 <= j < |colors| ==> NulFree(colors[j].name)
  }

  /** The entries carry the names and values of these colours. */
  predicate Carries(entries: seq<ColorEntry>, nameBlob: seq<byte>, all: seq<ColorSpec>) {
    |entries| == |all| && forall j :: 0 <= j < |all| ==> CarriesOne(entries[j], nameBlob, all[j])
  }

  predicate CarriesOne(e: ColorEntry, nameBlob: seq<byte>, c: ColorSpec) {
    e.value == c.value && e.nameOff <= |nameBlob| && CStringAt(nameBlob, e.nameOff) == c.name
  }

  lemma ColorsCarried(b: Builder)
    requires Encodable(b) && NamesNulFree(ColorsOf(b.leds))
    ensures Carries(DescribedColors(b), NameBlob(b), ColorsOf(b.leds))
  {
    forall j | 0 <= j < |ColorsOf(b.leds)|
      ensures CarriesOne(DescribedColors(b)[j], NameBlob(b), ColorsOf(b.leds)[j]) {
      ColorNameInBlob(b, j);
      NameReadsBack(NameBlob(b), NameStart(b, |b.faders| + j), ColorsOf(b.leds)[j].name);
    }
  }

  lemma PaletteEntries(c: Controller, l: LedRange, all: seq<ColorSpec>, mine: seq<ColorSpec>, name: seq<byte>)
    requires Carries(c.colors, c.nameBlob, all) && Holds(all, l.colorOffset, mine) && l.colorCount == |mine|
    ensures forall k: nat :: ColorNamed(c, l, k, name) <==> k < |mine| && mine[k].name == name
    ensures forall k :: 0 <= k < |mine| ==> l.colorOffset as int + k < |c.colors| &&
                                            c.colors[l.colorOffset as int + k].value == mine[k].value
  {
    forall k: nat ensures ColorNamed(c, l, k, name) <==> k < |mine| && mine[k].name == name {
      if k < |mine| { PaletteEntry(c, l, all, mine, name, k); }
    }
    forall k | 0 <= k < |mine|
      ensures l.colorOffset as int + k < |c.colors| && c.colors[l.colorOffset as int + k].value == mine[k].value
    {
      PaletteEntry(c, l, all, mine, name, k);
    }
  }

  lemma PaletteEntry(c: Controller, l: LedRange, all: seq<ColorSpec>, mine: seq<ColorSpec>, name: seq<byte>, k: nat)
    requires Carries(c.colors, c.nameBlob, all) && Holds(all, l.colorOffset, mine) && l.colorCount == |mine|
    requires k < |mine|
    ensures ColorNamed(c, l, k, name) <==> mine[k].name == name
    ensures l.colorOffset as int + k < |c.colors| && c.colors[l.colorOffset as int + k].value == mine[k].value
  {
    InSlice(all, l.colorOffset, mine, k);
    var at := l.colorOffset as int + k;
    assert CarriesOne(c.colors[at], c.nameBlob, all[at]);
  }

  lemma InSlice<T>(all: seq<T>, start: nat, part: seq<T>, k: nat)
    requires Holds(all, start, part) && k < |part|
    ensures start + k < |all| && all[start + k] == part[k]
  {
    assert all[start + k] == all[start..start + |part|][k];
  }

  lemma LookupInPalette(
      c: Controller, l: LedRange, all: seq<ColorSpec>, mine: seq<ColorSpec>, name: seq<byte>, r: Option<byte>)
    requires Carries(c.colors, c.nameBlob, all) && Holds(all, l.colorOffset, mine) && l.colorCount == |mine|
    requires IsColorValue(c, l, name, r)
    ensures r.None? <==> forall k :: 0 <= k < |mine| ==> mine[k].name != name
    ensures r.Some? ==> exists k: nat :: FirstNamed(mine, name, k) && mine[k].value == r.value
  {
    PaletteEntries(c, l, all, mine, name);
    if r.Some? {
      var k: nat :| ColorNamed(c, l, k, name) && c.colors[l.colorOffset as int + k].value == r.value &&
                    forall j :: 0 <= j < k ==> !ColorNamed(c, l, j, name);
      assert FirstNamed(mine, name, k);
    } else {
      assert forall k :: 0 <= k < |mine| ==> !ColorNamed(c, l, k, name);
    }
  }

  /** Looking a colour up after the round trip finds the first colour declared
      under that name in that LED's own palette, and nothing else. */
  lemma PaletteLookup(b: Builder, i: nat, name: seq<byte>, r: Option<byte>)
    requires Encodable(b) && i < |b.leds| && NamesNulFree(ColorsOf(b.leds))
    requires IsColorValue(Described(b), DescribedLeds(b)[i], name, r)
    ensures r.None? <==> forall k :: 0 <= k < |b.leds[i].colors| ==> b.leds[i].colors[k].name != name
    ensures r.Some? ==> exists k: nat :: FirstNamed(b.leds[i].colors, name, k) && b.leds[i].colors[k].value == r.value
  {
    PaletteSpan(b, i);
    ColorsCarried(b);
    LookupInPalette(Described(b), DescribedLeds(b)[i], ColorsOf(b.leds), b.leds[i].colors, name, r);
  }
}
