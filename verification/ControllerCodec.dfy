/** The encoder and the parser of MDF1 blobs, against the format of
    ControllerFormat: ControllerBuilder::encode (controller_encoder.cpp) and
    parseMidiController (mdef.cpp). */
module ControllerCodec {
  import opened Bytes
  import opened Mdef
  import opened ControllerFormat

  // ---- encoder -----------------------------------------------------------

  method WithinCounts(b: Builder) returns (ok: bool)
    ensures ok <==> CountsOk(b)
  {
    if |b.name| > 255 || |b.pads| > MAX_PADS || |b.faders| > MAX_FADERS || |b.encoders| > MAX_ENCODERS ||
       |b.leds| > MAX_LED_RANGES
    {
      return false;
    }
    var totalColors := TotalColors(b.leds);
    if totalColors > MAX_COLORS || |b.initBlobs| > MAX_INIT_BLOBS { return false; }
    for i := 0 to |b.initBlobs|
      invariant forall k :: 0 <= k < i ==> |b.initBlobs[k]| <= MAX_INIT_BLOB_BYTES
    {
      if |b.initBlobs[i]| > MAX_INIT_BLOB_BYTES { return false; }
    }
    return true;
  }

  method TotalColors(leds: seq<LedSpec>) returns (n: nat)
    ensures n == |ColorsOf(leds)|
  {
    n := 0;
    for i := 0 to |leds|
      invariant n == |ColorsOf(leds[..i])|
    {
      assert leds[..i + 1][..i] == leds[..i];
      n := n + |leds[i].colors|;
    }
    assert leds[..|leds|] == leds;
  }

  method UsesChannels(b: Builder) returns (any: bool)
    ensures any <==> AnyChannelRange(b)
  {
    any := false;
    for i := 0 to |b.pads|
      invariant any <==> exists k :: 0 <= k < i && b.pads[k].channelFrom != CHANNEL_AGNOSTIC
    {
      if b.pads[i].channelFrom != CHANNEL_AGNOSTIC { any := true; }
    }
    ghost var inPads := any;
    for i := 0 to |b.faders|
      invariant any <==> inPads || exists k :: 0 <= k < i && b.faders[k].channelFrom != CHANNEL_AGNOSTIC
    {
      if b.faders[i].channelFrom != CHANNEL_AGNOSTIC { any := true; }
    }
    ghost var inFaders := any;
    for i := 0 to |b.leds|
      invariant any <==> inFaders || exists k :: 0 <= k < i && b.leds[k].channelFrom != CHANNEL_AGNOSTIC
    {
      if b.leds[i].channelFrom != CHANNEL_AGNOSTIC { any := true; }
    }
  }

  method EncodeHeader(b: Builder, version: byte) returns (blob: seq<byte>)
    requires version == Version(b)
    ensures blob == Header(b)
  {
    var totalColors := TotalColors(b.leds);
    blob := MAGIC + [version, 0, b.midiChannel];
    blob := blob + [|b.name| % 256, |b.pads| % 256, |b.faders| % 256, |b.encoders| % 256];
    blob := blob + [|b.leds| % 256, totalColors % 256];
    if version == 3 {
      blob := blob + [|b.initBlobs| % 256];
    }
  }

  method AppendPads(blob: seq<byte>, b: Builder, wide: bool) returns (r: seq<byte>)
    requires wide == Wide(b)
    ensures r == blob + Flat(PadRows(b))
  {
    r := blob;
    for i := 0 to |b.pads|
      invariant r == blob + Flat(PadRows(b)[..i])
    {
      var p := b.pads[i];
      var row := [p.noteFrom, p.noteTo];
      if wide { row := row + [p.channelFrom, p.channelTo]; }
      assert row == PadRow(wide, p);
      AppendRow(blob, r, PadRows(b), i, row);
      r := r + row;
    }
    assert PadRows(b)[..|b.pads|] == PadRows(b);
  }

  method FaderNames(b: Builder) returns (nameBlob: seq<byte>, offs: seq<u16>)
    ensures nameBlob == Flat(NameChunks(b)[..|b.faders|])
    ensures |offs| == |b.faders| && forall i :: 0 <= i < |offs| ==> offs[i] == FaderNameOff(b, i)
  {
    ghost var chunks := NameChunks(b);
    nameBlob, offs := [], [];
    for i := 0 to |b.faders|
      invariant nameBlob == Flat(chunks[..i])
      invariant |offs| == i && forall k :: 0 <= k < i ==> offs[k] == FaderNameOff(b, k)
    {
      FlatPush(chunks, i);
      var name := b.faders[i].name;
      var off := |nameBlob| % 0x1_0000;
      offs := offs + [if name == [] then UNNAMED else off];
      if name != [] {
        nameBlob := nameBlob + (name + [0]);
      }
    }
  }

  method AppendFaders(blob: seq<byte>, b: Builder, wide: bool, offs: seq<u16>) returns (r: seq<byte>)
    requires wide == Wide(b)
    requires |offs| == |b.faders| && forall i :: 0 <= i < |offs| ==> offs[i] == FaderNameOff(b, i)
    ensures r == blob + Flat(FaderRows(b))
  {
    ghost var rows := FaderRows(b);
    r := blob;
    for i := 0 to |b.faders|
      invariant r == blob + Flat(rows[..i])
    {
      var row := FaderBytes(b.faders[i], wide, offs[i]);
      assert row == rows[i];
      AppendRow(blob, r, rows, i, row);
      r := r + row;
    }
    assert rows[..|b.faders|] == rows;
  }

  method FaderBytes(f: FaderSpec, wide: bool, off: u16) returns (row: seq<byte>)
    ensures row == FaderRow(wide, f, off)
  {
    row := [f.ccFrom, f.ccTo] + Le16(off);
    if wide { row := row + [f.channelFrom, f.channelTo]; }
  }

  method AppendEncoders(blob: seq<byte>, b: Builder) returns (r: seq<byte>)
    ensures r == blob + Flat(EncoderRows(b))
  {
    r := blob;
    for i := 0 to |b.encoders|
      invariant r == blob + Flat(EncoderRows(b)[..i])
    {
      FlatPush(EncoderRows(b), i);
      var e := b.encoders[i];
      r := r + [e.ccFrom, e.ccTo, e.mode];
    }
    assert EncoderRows(b)[..|b.encoders|] == EncoderRows(b);
  }

  /** From `base` in the chunks and `start` in the entries on stand these colours. */
  predicate PaletteAt(
      chunks: seq<seq<byte>>, base: nat, entries: seq<ColorEntry>, start: nat, mine: seq<ColorSpec>) {
    base + |mine| <= |chunks| && start + |mine| <= |entries| &&
    forall j :: 0 <= j < |mine| ==>
      chunks[base + j] == mine[j].name + [0] &&
      entries[start + j] == ColorEntry(|Flat(chunks[..base + j])| % 0x1_0000, mine[j].value)
  }

  lemma PaletteOf(b: Builder, i: nat, start: nat, base: nat)
    requires i < |b.leds| && start == |ColorsOf(b.leds[..i])| && base == |b.faders| + start
    ensures |ColorsOf(b.leds[..i + 1])| == start + |b.leds[i].colors|
    ensures PaletteAt(NameChunks(b), base, DescribedColors(b), start, b.leds[i].colors)
  {
    ColorsPrefix(b.leds, i);
    EntriesOf(b, start, base, b.leds[i].colors);
  }

  lemma EntriesOf(b: Builder, start: nat, base: nat, mine: seq<ColorSpec>)
    requires base == |b.faders| + start && Holds(ColorsOf(b.leds), start, mine)
    ensures PaletteAt(NameChunks(b), base, DescribedColors(b), start, mine)
  {
    forall j | 0 <= j < |mine|
      ensures NameChunks(b)[base + j] == mine[j].name + [0]
      ensures DescribedColors(b)[start + j] == ColorEntry(|Flat(NameChunks(b)[..base + j])| % 0x1_0000, mine[j].value)
    {
      InSlice(ColorsOf(b.leds), start, mine, j);
      EntryOf(b, start + j, base + j);
    }
  }

  lemma EntryOf(b: Builder, k: nat, at: nat)
    requires k < |ColorsOf(b.leds)| && at == |b.faders| + k
    ensures NameChunks(b)[at] == ColorsOf(b.leds)[k].name + [0]
    ensures DescribedColors(b)[k] == ColorEntry(|Flat(NameChunks(b)[..at])| % 0x1_0000, ColorsOf(b.leds)[k].value)
  {
    assert NameChunks(b)[at] == ColorChunks(b)[k];
  }

  /** Names and entries of one LED range's palette, appended to the shared tables. */
  method CollectPalette(mine: seq<ColorSpec>, nameBlob: seq<byte>, table: seq<ColorEntry>,
                        ghost chunks: seq<seq<byte>>, ghost base: nat,
                        ghost entries: seq<ColorEntry>, ghost start: nat)
      returns (names: seq<byte>, colors: seq<ColorEntry>)
    requires PaletteAt(chunks, base, entries, start, mine)
    requires nameBlob == Flat(chunks[..base]) && table == entries[..start]
    ensures names == Flat(chunks[..base + |mine|]) && colors == entries[..start + |mine|]
  {
    names, colors := nameBlob, table;
    for j := 0 to |mine|
      invariant names == Flat(chunks[..base + j]) && colors == entries[..start + j]
    {
      FlatPush(chunks, base + j);
      var off := |names| % 0x1_0000;
      names := names + (mine[j].name + [0]);
      colors := colors + [ColorEntry(off, mine[j].value)];
    }
  }

  /** The LED rows, the next palette offset, the name blob and the colour table. */
  datatype LedState = LedState(rows: seq<byte>, cursor: u16, names: seq<byte>, colors: seq<ColorEntry>)

  /** How many colours the first `i` palettes hold. */
  ghost function PaletteStart(b: Builder, i: nat): (start: nat)
    requires i <= |b.leds|
    ensures start == |ColorsOf(b.leds[..i])| <= |ColorsOf(b.leds)|
  {
    ColorsUpTo(b.leds, i);
    |ColorsOf(b.leds[..i])|
  }

  /** The name blob once the first `base` chunks are in it. */
  ghost function NamesTo(b: Builder, base: nat): seq<byte>
    requires base <= |b.faders| + |ColorsOf(b.leds)|
  {
    Flat(NameChunks(b)[..base])
  }

  ghost function ColorsTo(b: Builder, start: nat): seq<ColorEntry>
    requires start <= |ColorsOf(b.leds)|
  {
    DescribedColors(b)[..start]
  }

  ghost function RowsTo(b: Builder, i: nat): seq<byte>
    requires i <= |b.leds|
  {
    Flat(LedRows(b)[..i])
  }

  lemma RowsToNext(b: Builder, i: nat)
    requires i < |b.leds|
    ensures RowsTo(b, i + 1) == RowsTo(b, i) + LedRows(b)[i]
  {
    FlatPush(LedRows(b), i);
  }

  /** Where the palette after LED range `i` starts: `start` among the colours,
      `base` among the names. */
  lemma NextPalette(b: Builder, i: nat, start: nat, base: nat)
    requires i < |b.leds| && start == PaletteStart(b, i) && base == |b.faders| + start
    ensures PaletteStart(b, i + 1) == start + |b.leds[i].colors|
    ensures PaletteAt(NameChunks(b), base, DescribedColors(b), start, b.leds[i].colors)
  {
    PaletteOf(b, i, start, base);
  }

  /** The loop over the LED ranges: rows, names and colours grow together. */
  method CollectLeds(b: Builder, wide: bool, faderNames: seq<byte>) returns (s: LedState)
    requires wide == Wide(b) && faderNames == Flat(NameChunks(b)[..|b.faders|])
    ensures s.rows == Flat(LedRows(b)) && s.names == NameBlob(b) && s.colors == DescribedColors(b)
  {
    s := LedState([], 0, faderNames, []);
    NoLeds(b);
    ghost var start, base := 0, |b.faders|;
    for i := 0 to |b.leds|
      invariant start == PaletteStart(b, i) && base == |b.faders| + start
      invariant s == LedState(RowsTo(b, i), Cursor(b, i), NamesTo(b, base), ColorsTo(b, start))
    {
      ghost var start' := start + |b.leds[i].colors|;
      ghost var base' := base + |b.leds[i].colors|;
      NextPalette(b, i, start, base);
      s := Led(b, wide, i, s, start, base, start', base');
      start, base := start', base';
    }
    AllLeds(b, start, base);
  }

  lemma NoLeds(b: Builder)
    ensures PaletteStart(b, 0) == 0 && RowsTo(b, 0) == [] && Cursor(b, 0) == 0 && ColorsTo(b, 0) == []
  {
  }

  lemma AllLeds(b: Builder, start: nat, base: nat)
    requires start == PaletteStart(b, |b.leds|) && base == |b.faders| + start
    ensures RowsTo(b, |b.leds|) == Flat(LedRows(b)) && NamesTo(b, base) == NameBlob(b)
    ensures ColorsTo(b, start) == DescribedColors(b)
  {
    assert b.leds[..|b.leds|] == b.leds;
    assert LedRows(b)[..|b.leds|] == LedRows(b);
    assert NameChunks(b)[..|NameChunks(b)|] == NameChunks(b);
  }

  /** The row of one LED range, and its palette. */
  method Led(b: Builder, wide: bool, i: nat, s: LedState, ghost start: nat, ghost base: nat,
             ghost start': nat, ghost base': nat)
      returns (t: LedState)
    requires i < |b.leds| && wide == Wide(b)
    requires PaletteAt(NameChunks(b), base, DescribedColors(b), start, b.leds[i].colors)
    requires start' == start + |b.leds[i].colors| && base' == base + |b.leds[i].colors|
    requires s == LedState(RowsTo(b, i), Cursor(b, i), NamesTo(b, base), ColorsTo(b, start))
    ensures t.rows == RowsTo(b, i + 1) && t.cursor == Cursor(b, i + 1)
    ensures t.names == NamesTo(b, base') && t.colors == ColorsTo(b, start')
  {
    var row := LedBytes(b, wide, s.cursor, i);
    var next := AdvanceCursor(b, s.cursor, i);
    var names, colors := CollectPalette(b.leds[i].colors, s.names, s.colors,
                                        NameChunks(b), base, DescribedColors(b), start);
    RowsToNext(b, i);
    t := LedState(s.rows + row, next, names, colors);
  }

  method LedBytes(b: Builder, wide: bool, cursor: u16, i: nat) returns (row: seq<byte>)
    requires i < |b.leds| && wide == Wide(b) && cursor == Cursor(b, i)
    ensures row == LedRows(b)[i]
  {
    var l := b.leds[i];
    row := [l.msgType, l.addrFrom, l.addrTo, l.semantic] + Le16(cursor) + [|l.colors| % 256];
    if wide { row := row + [l.channelFrom, l.channelTo]; }
    assert row == LedRow(wide, l, cursor);
  }

  method AdvanceCursor(b: Builder, cursor: u16, i: nat) returns (next: u16)
    requires i < |b.leds| && cursor == Cursor(b, i)
    ensures next == Cursor(b, i + 1)
  {
    next := (cursor as int + |b.leds[i].colors|) % 0x1_0000;
    ColorsPrefix(b.leds, i);
  }

  method AppendColors(blob: seq<byte>, b: Builder, colors: seq<ColorEntry>) returns (r: seq<byte>)
    requires colors == DescribedColors(b)
    ensures r == blob + Flat(ColorRows(b))
  {
    r := blob;
    for j := 0 to |colors|
      invariant r == blob + Flat(ColorRows(b)[..j])
    {
      FlatPush(ColorRows(b), j);
      r := r + (Le16(colors[j].nameOff) + [colors[j].value]);
    }
    assert ColorRows(b)[..|colors|] == ColorRows(b);
  }

  method AppendInits(blob: seq<byte>, b: Builder) returns (r: seq<byte>)
    ensures r == blob + Flat(InitRows(b))
  {
    r := blob;
    for i := 0 to |b.initBlobs|
      invariant r == blob + Flat(InitRows(b)[..i])
    {
      FlatPush(InitRows(b), i);
      r := r + ([|b.initBlobs[i]| % 256] + b.initBlobs[i]);
    }
    assert InitRows(b)[..|b.initBlobs|] == InitRows(b);
  }

  lemma ThreeParts(parts: seq<seq<byte>>, k: nat, before: seq<byte>, after: seq<byte>)
    requires k + 3 <= |parts| && before == Flat(parts[..k])
    requires after == before + parts[k] + parts[k + 1] + parts[k + 2]
    ensures after == Flat(parts[..k + 3])
  {
    FlatPush(parts, k);
    FlatPush(parts, k + 1);
    FlatPush(parts, k + 2);
  }

  lemma NineParts(parts: seq<seq<byte>>, top: seq<byte>, front: seq<byte>, blob: seq<byte>)
    requires |parts| == 9 && top == parts[0] + parts[1] + parts[2]
    requires front == top + parts[3] + parts[4] + parts[5]
    requires blob == front + parts[6] + parts[7] + parts[8]
    ensures blob == Flat(parts)
  {
    assert [] + parts[0] == parts[0];
    ThreeParts(parts, 0, [], top);
    ThreeParts(parts, 3, top, front);
    ThreeParts(parts, 6, front, blob);
    assert parts[..9] == parts;
  }

  lemma Assembled(b: Builder, top: seq<byte>, front: seq<byte>, names: seq<byte>, blob: seq<byte>)
    requires top == Header(b) + b.name + Flat(PadRows(b))
    requires front == top + Flat(FaderRows(b)) + Flat(EncoderRows(b)) + Flat(LedRows(b))
    requires names == NameBlob(b) && blob == front + Flat(ColorRows(b)) + Flat(InitRows(b)) + names
    ensures blob == Encoded(b)
  {
    NineParts(Parts(b), top, front, blob);
  }

  method Encode(b: Builder) returns (r: Option<seq<byte>>)
    ensures r == if Encodable(b) then Some(Encoded(b)) else None
  {
    var ok := WithinCounts(b);
    if !ok { return None; }
    var any := UsesChannels(b);
    var version: byte := if b.initBlobs != [] then 3 else if any then 2 else 1;
    var top := EncodeTop(b, version);
    var front, names, colors := EncodeMiddle(b, version, top);
    var blob := EncodeBack(b, version, front, names, colors);
    Assembled(b, top, front, names, blob);
    if |names| > MAX_NAME_BLOB { return None; }
    r := Some(blob);
  }

  /** Header, name and pads. */
  method EncodeTop(b: Builder, version: byte) returns (blob: seq<byte>)
    requires version == Version(b)
    ensures blob == Header(b) + b.name + Flat(PadRows(b))
  {
    blob := EncodeHeader(b, version);
    blob := blob + b.name;
    blob := AppendPads(blob, b, version >= 2);
  }

  /** Faders, encoders and LEDs, with the names and colours they refer to. */
  method EncodeMiddle(b: Builder, version: byte, top: seq<byte>)
      returns (blob: seq<byte>, names: seq<byte>, colors: seq<ColorEntry>)
    requires version == Version(b)
    ensures blob == top + Flat(FaderRows(b)) + Flat(EncoderRows(b)) + Flat(LedRows(b))
    ensures names == NameBlob(b) && colors == DescribedColors(b)
  {
    var wide := version >= 2;
    var faderNames, offs := FaderNames(b);
    blob := AppendFaders(top, b, wide, offs);
    blob := AppendEncoders(blob, b);
    var s := CollectLeds(b, wide, faderNames);
    blob, names, colors := blob + s.rows, s.names, s.colors;
  }

  /** Colours, init messages and names. */
  method EncodeBack(b: Builder, version: byte, front: seq<byte>, names: seq<byte>, colors: seq<ColorEntry>)
      returns (blob: seq<byte>)
    requires version == Version(b) && colors == DescribedColors(b)
    ensures blob == front + Flat(ColorRows(b)) + Flat(InitRows(b)) + names
  {
    blob := AppendColors(front, b, colors);
    if version == 3 {
      blob := AppendInits(blob, b);
    } else {
      assert InitRows(b) == [];
      assert blob + [] == blob;
    }
    blob := blob + names;
  }

  // ---- parser ------------------------------------------------------------

  method CheckHeader(d: seq<byte>) returns (ok: bool)
    ensures ok <==> HeaderOk(d)
  {
    if |d| < 13 { return false; }
    if d[..4] != MAGIC { return false; }
    var version := d[4];
    if version != 1 && version != 2 && version != 3 { return false; }
    if d[5] != 0 || d[6] > 16 { return false; }
    if d[8] > MAX_PADS || d[9] > MAX_FADERS || d[10] > MAX_ENCODERS { return false; }
    if d[11] > MAX_LED_RANGES || d[12] > MAX_COLORS { return false; }
    if version == 3 {
      if |d| < 14 || d[13] > MAX_INIT_BLOBS { return false; }
    }
    return true;
  }

  method ParseInits(d: seq<byte>, at: nat, count: nat) returns (r: Option<Inits>)
    ensures r == InitsFrom(d, at, count)
  {
    var pos: nat, blobs := at, [];
    var i := 0;
    while i < count
      invariant 0 <= i <= count && InitsFrom(d, at, i) == Some(Inits(blobs, pos))
    {
      if |d| < pos + 1 || d[pos] > MAX_INIT_BLOB_BYTES || |d| < pos + 1 + d[pos] as int {
        InitsStop(d, at, i, count);
        return None;
      }
      blobs := blobs + [d[pos + 1..pos + 1 + d[pos] as int]];
      pos := pos + 1 + d[pos] as int;
      i := i + 1;
    }
    r := Some(Inits(blobs, pos));
  }

  /** A table cut short stays unreadable however many entries it claims. */
  lemma {:induction false} InitsStop(d: seq<byte>, at: nat, i: nat, n: nat)
    requires i < n && InitsFrom(d, at, i + 1).None?
    ensures InitsFrom(d, at, n).None?
  {
    if i + 1 < n { InitsStop(d, at, i, n - 1); }
  }

  method CheckName(nameOff: u16, nameBlob: seq<byte>) returns (ok: bool)
    ensures ok <==> NameOk(nameOff, nameBlob)
  {
    if nameOff >= |nameBlob| { return false; }
    ok := HasNulWithin(nameBlob, nameOff, |nameBlob| - nameOff);
    TerminatedSuffix(nameBlob, nameOff);
    assert nameBlob[nameOff..] == nameBlob[nameOff..nameOff + (|nameBlob| - nameOff)];
  }

  method ParsePads(rows: seq<seq<byte>>, wide: bool) returns (r: Option<seq<PadRange>>)
    requires AllWide(rows, PadWidth(wide))
    ensures var pads := PadsOf(rows, wide);
            r == if forall i :: 0 <= i < |pads| ==> PadOk(pads[i]) then Some(pads) else None
  {
    var pads: seq<PadRange> := [];
    for i := 0 to |rows|
      invariant pads == PadsOf(rows, wide)[..i] && forall k :: 0 <= k < i ==> PadOk(PadsOf(rows, wide)[k])
    {
      var p := PadOf(rows[i], wide);
      assert p == PadsOf(rows, wide)[i];
      if p.noteFrom > 127 || p.noteTo > 127 || p.noteFrom > p.noteTo { return None; }
      if wide && !ChannelsOk(p.channelFrom, p.channelTo) { return None; }
      pads := pads + [p];
    }
    assert pads == PadsOf(rows, wide);
    r := Some(pads);
  }

  method ParseFaders(rows: seq<seq<byte>>, wide: bool, nameBlob: seq<byte>) returns (r: Option<seq<FaderRange>>)
    requires AllWide(rows, FaderWidth(wide))
    ensures var faders := FadersOf(rows, wide);
            r == if forall i :: 0 <= i < |faders| ==> FaderOk(faders[i], nameBlob) then Some(faders) else None
  {
    var faders: seq<FaderRange> := [];
    for i := 0 to |rows|
      invariant faders == FadersOf(rows, wide)[..i]
      invariant forall k :: 0 <= k < i ==> FaderOk(FadersOf(rows, wide)[k], nameBlob)
    {
      var f := FaderOf(rows[i], wide);
      assert f == FadersOf(rows, wide)[i];
      var named := true;
      if f.ccFrom > 127 || f.ccTo > 127 || f.ccFrom > f.ccTo { return None; }
      if f.nameOff != UNNAMED { named := CheckName(f.nameOff, nameBlob); }
      if !named || (wide && !ChannelsOk(f.channelFrom, f.channelTo)) { return None; }
      faders := faders + [f];
    }
    assert faders == FadersOf(rows, wide);
    r := Some(faders);
  }

  method ParseEncoders(rows: seq<seq<byte>>) returns (r: Option<seq<EncoderRange>>)
    requires AllWide(rows, 3)
    ensures var encoders := EncodersOf(rows);
            r == if forall i :: 0 <= i < |encoders| ==> EncoderOk(encoders[i]) then Some(encoders) else None
  {
    var encoders: seq<EncoderRange> := [];
    for i := 0 to |rows|
      invariant encoders == EncodersOf(rows)[..i] && forall k :: 0 <= k < i ==> EncoderOk(EncodersOf(rows)[k])
    {
      var e := EncoderOf(rows[i]);
      assert e == EncodersOf(rows)[i];
      if e.ccFrom > 127 || e.ccTo > 127 || e.ccFrom > e.ccTo || e.mode > LAST_MODE { return None; }
      encoders := encoders + [e];
    }
    assert encoders == EncodersOf(rows);
    r := Some(encoders);
  }

  method ParseLeds(rows: seq<seq<byte>>, wide: bool, colorCount: nat) returns (r: Option<seq<LedRange>>)
    requires AllWide(rows, LedWidth(wide))
    ensures var leds := LedsOf(rows, wide);
            r == if forall i :: 0 <= i < |leds| ==> LedOk(leds[i], colorCount) then Some(leds) else None
  {
    var leds: seq<LedRange> := [];
    for i := 0 to |rows|
      invariant leds == LedsOf(rows, wide)[..i] && forall k :: 0 <= k < i ==> LedOk(LedsOf(rows, wide)[k], colorCount)
    {
      var l := LedOf(rows[i], wide);
      assert l == LedsOf(rows, wide)[i];
      if l.msgType > CC || l.addrFrom > 127 || l.addrTo > 127 || l.addrFrom > l.addrTo { return None; }
      if l.semantic > LAST_SEMANTIC || l.colorOffset > colorCount { return None; }
      if l.colorOffset as int + l.colorCount as int > colorCount { return None; }
      if wide && !ChannelsOk(l.channelFrom, l.channelTo) { return None; }
      leds := leds + [l];
    }
    assert leds == LedsOf(rows, wide);
    r := Some(leds);
  }

  method ParseColors(rows: seq<seq<byte>>, nameBlob: seq<byte>) returns (r: Option<seq<ColorEntry>>)
    requires AllWide(rows, 3)
    ensures var colors := ColorsFrom(rows);
            r == if forall i :: 0 <= i < |colors| ==> ColorOk(colors[i], nameBlob) then Some(colors) else None
  {
    var colors: seq<ColorEntry> := [];
    for i := 0 to |rows|
      invariant colors == ColorsFrom(rows)[..i]
      invariant forall k :: 0 <= k < i ==> ColorOk(ColorsFrom(rows)[k], nameBlob)
    {
      var c := ColorOf(rows[i]);
      assert c == ColorsFrom(rows)[i];
      var named := CheckName(c.nameOff, nameBlob);
      if c.value > 127 || !named { return None; }
      colors := colors + [c];
    }
    assert colors == ColorsFrom(rows);
    r := Some(colors);
  }

  method Parse(d: seq<byte>) returns (r: Option<Controller>)
    ensures r.Some? <==> Accepted(d)
    ensures r.Some? ==> r.value == Decoded(d)
  {
    var ok := CheckHeader(d);
    if !ok { return None; }
    var initCount: nat := if d[4] == 3 then d[13] else 0;
    var inits := ParseInits(d, InitTable(d), initCount);
    if inits.None? || |d| < inits.value.end || |d| - inits.value.end > MAX_NAME_BLOB { return None; }
    r := ParseTables(d, inits.value);
  }

  method ParseTables(d: seq<byte>, inits: Inits) returns (r: Option<Controller>)
    requires HeaderOk(d) && SizesOk(d) && Some(inits) == InitsFrom(d, InitTable(d), InitCount(d))
    ensures r == if Wellformed(Decoded(d)) then Some(Decoded(d)) else None
  {
    var wide, nameBlob := d[4] >= 2, d[inits.end..];
    var pads := ParsePads(Rows(d, PadTable(d), PadWidth(wide), d[8] as int), wide);
    if pads.None? { return None; }
    var faders := ParseFaders(Rows(d, FaderTable(d), FaderWidth(wide), d[9] as int), wide, nameBlob);
    if faders.None? { return None; }
    var encoders := ParseEncoders(Rows(d, EncoderTable(d), 3, d[10] as int));
    if encoders.None? { return None; }
    var leds := ParseLeds(Rows(d, LedTable(d), LedWidth(wide), d[11] as int), wide, d[12] as int);
    if leds.None? { return None; }
    var colors := ParseColors(Rows(d, ColorTable(d), 3, d[12] as int), nameBlob);
    if colors.None? { return None; }
    r := Some(Controller(d[6], pads.value, faders.value, encoders.value, leds.value, colors.value, inits.blobs, nameBlob));
  }
}
