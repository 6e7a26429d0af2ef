/** Controller definitions of mdef.cpp: what a parsed controller holds and how its
    LEDs and colours are looked up. */
module Mdef {
  import opened Bytes

  const MAX_PADS: nat := 32
  const MAX_FADERS: nat := 16
  const MAX_ENCODERS: nat := 16
  const MAX_LED_RANGES: nat := 8
  const MAX_COLORS: nat := 96
  const MAX_NAME_BLOB: nat := 1024
  const MAX_INIT_BLOBS: nat := 8
  const MAX_INIT_BLOB_BYTES: nat := 64
  const CHANNEL_AGNOSTIC: byte := 0xFF
  const UNNAMED: u16 := 0xFFFF

  // Highest values of the enumerations EncoderMode, LedMsgType and LedSemantic.
  const LAST_MODE: byte := 2
  const NOTE: byte := 0
  const CC: byte := 1
  const LAST_SEMANTIC: byte := 1

  datatype PadRange = PadRange(noteFrom: byte, noteTo: byte, channelFrom: byte, channelTo: byte)

  datatype FaderRange = FaderRange(ccFrom: byte, ccTo: byte, nameOff: u16, channelFrom: byte, channelTo: byte)

  datatype EncoderRange = EncoderRange(ccFrom: byte, ccTo: byte, mode: byte)

  datatype LedRange = LedRange(
    msgType: byte, addrFrom: byte, addrTo: byte, semantic: byte, colorOffset: u16, colorCount: byte,
    channelFrom: byte, channelTo: byte)

  datatype ColorEntry = ColorEntry(nameOff: u16, value: byte)

  datatype Controller = Controller(
    midiChannel: byte,
    pads: seq<PadRange>,
    faders: seq<FaderRange>,
    encoders: seq<EncoderRange>,
    leds: seq<LedRange>,
    colors: seq<ColorEntry>,
    initBlobs: seq<seq<byte>>,
    nameBlob: seq<byte>)

  // ---- what the parser insists on ----------------------------------------

  predicate ChannelsOk(from: byte, to: byte) {
    (from == CHANNEL_AGNOSTIC && to == CHANNEL_AGNOSTIC) ||
    (from != CHANNEL_AGNOSTIC && to != CHANNEL_AGNOSTIC && from <= to <= 15)
  }

  predicate AddressesOk(from: byte, to: byte) {
    from <= to <= 127
  }

  predicate PadOk(p: PadRange) {
    AddressesOk(p.noteFrom, p.noteTo) && ChannelsOk(p.channelFrom, p.channelTo)
  }

  ghost predicate NameOk(off: u16, nameBlob: seq<byte>) {
    off < |nameBlob| && Terminated(nameBlob, off)
  }

  ghost predicate FaderOk(f: FaderRange, nameBlob: seq<byte>) {
    AddressesOk(f.ccFrom, f.ccTo) && ChannelsOk(f.channelFrom, f.channelTo) &&
    (f.nameOff != UNNAMED ==> NameOk(f.nameOff, nameBlob))
  }

  predicate EncoderOk(e: EncoderRange) {
    AddressesOk(e.ccFrom, e.ccTo) && e.mode <= LAST_MODE
  }

  predicate LedOk(l: LedRange, colorCount: nat) {
    l.msgType <= CC && AddressesOk(l.addrFrom, l.addrTo) && l.semantic <= LAST_SEMANTIC &&
    l.colorOffset as int + l.colorCount as int <= colorCount && ChannelsOk(l.channelFrom, l.channelTo)
  }

  ghost predicate ColorOk(c: ColorEntry, nameBlob: seq<byte>) {
    c.value <= 127 && NameOk(c.nameOff, nameBlob)
  }

  ghost predicate ColorsOk(c: Controller) {
    forall i :: 0 <= i < |c.colors| ==> ColorOk(c.colors[i], c.nameBlob)
  }

  ghost predicate Wellformed(c: Controller) {
    (forall i :: 0 <= i < |c.pads| ==> PadOk(c.pads[i])) &&
    (forall i :: 0 <= i < |c.faders| ==> FaderOk(c.faders[i], c.nameBlob)) &&
    (forall i :: 0 <= i < |c.encoders| ==> EncoderOk(c.encoders[i])) &&
    (forall i :: 0 <= i < |c.leds| ==> LedOk(c.leds[i], |c.colors|)) && ColorsOk(c)
  }

  // ---- lookups -----------------------------------------------------------

  predicate Covers(l: LedRange, msgType: byte, addr: byte) {
    l.msgType == msgType && l.addrFrom <= addr <= l.addrTo
  }

  /** First LED range of that message type covering `addr`, or `|leds|`. */
  function LedIndex(leds: seq<LedRange>, msgType: byte, addr: byte): (i: nat)
    ensures i <= |leds|
    ensures i < |leds| ==> Covers(leds[i], msgType, addr)
    ensures forall j :: 0 <= j < i ==> !Covers(leds[j], msgType, addr)
  {
    if leds == [] || Covers(leds[0], msgType, addr) then 0 else 1 + LedIndex(leds[1..], msgType, addr)
  }

  method FindLedRange(c: Controller, msgType: byte, addr: byte) returns (i: nat)
    ensures i == LedIndex(c.leds, msgType, addr)
  {
    i := 0;
    while i < |c.leds|
      invariant i <= |c.leds|
      invariant forall j :: 0 <= j < i ==> !Covers(c.leds[j], msgType, addr)
    {
      if Covers(c.leds[i], msgType, addr) { return; }
      i := i + 1;
    }
  }

  predicate EntryNamed(e: ColorEntry, nameBlob: seq<byte>, name: seq<byte>) {
    e.nameOff <= |nameBlob| && CStringAt(nameBlob, e.nameOff) == name
  }

  /** Entry `k` of a palette is called `name`. */
  predicate ColorNamed(c: Controller, l: LedRange, k: nat, name: seq<byte>) {
    k < l.colorCount && l.colorOffset as int + k < |c.colors| &&
    EntryNamed(c.colors[l.colorOffset as int + k], c.nameBlob, name)
  }

  /** Value of the first entry of the palette called `name`. */
  ghost predicate IsColorValue(c: Controller, l: LedRange, name: seq<byte>, r: Option<byte>) {
    match r
    case Some(v) => exists k: nat ::
      ColorNamed(c, l, k, name) && c.colors[l.colorOffset as int + k].value == v &&
      forall j :: 0 <= j < k ==> !ColorNamed(c, l, j, name)
    case None => forall k: nat :: !ColorNamed(c, l, k, name)
  }

  /** Value of the first entry from `k` on called `name`. */
  function ColorFrom(c: Controller, l: LedRange, name: seq<byte>, k: nat): Option<byte>
    decreases l.colorCount as int - k
  {
    if k >= l.colorCount as int then None
    else if ColorNamed(c, l, k, name) then Some(c.colors[l.colorOffset as int + k].value)
    else ColorFrom(c, l, name, k + 1)
  }

  /** That search finds the first entry of the palette so named, and only that. */
  lemma {:induction false} SearchFindsFirst(c: Controller, l: LedRange, name: seq<byte>, k: nat)
    requires forall j :: 0 <= j < k ==> !ColorNamed(c, l, j, name)
    ensures IsColorValue(c, l, name, ColorFrom(c, l, name, k))
    decreases l.colorCount as int - k
  {
    if k < l.colorCount as int {
      if !ColorNamed(c, l, k, name) { SearchFindsFirst(c, l, name, k + 1); }
    }
  }

  /** Every colour's name starts inside the blob, as `Wellformed` has it. */
  predicate NamesInside(c: Controller) {
    forall k :: 0 <= k < |c.colors| ==> c.colors[k].nameOff < |c.nameBlob|
  }

  /** A search from `k` that passes everything before `i` continues at `i`. */
  lemma {:induction false} ColorFromLater(c: Controller, l: LedRange, name: seq<byte>, k: nat, i: nat)
    requires k <= i <= l.colorCount as int && forall j :: k <= j < i ==> !ColorNamed(c, l, j, name)
    ensures ColorFrom(c, l, name, k) == ColorFrom(c, l, name, i)
    decreases i - k
  {
    if k == i {
    } else {
      ColorFromLater(c, l, name, k + 1, i);
    }
  }

  method ColorIs(c: Controller, l: LedRange, k: nat, name: seq<byte>) returns (found: bool)
    requires NamesInside(c) && l.colorOffset as int + l.colorCount as int <= |c.colors| && k < l.colorCount
    ensures found <==> ColorNamed(c, l, k, name)
  {
    var entry := c.colors[l.colorOffset as int + k];
    found := CStringAt(c.nameBlob, entry.nameOff) == name;
  }

  method LedColorValueByName(c: Controller, l: LedRange, name: seq<byte>) returns (r: Option<byte>)
    requires NamesInside(c) && l.colorOffset as int + l.colorCount as int <= |c.colors|
    ensures r == ColorFrom(c, l, name, 0)
  {
    var i := 0;
    while i < l.colorCount as int
      invariant 0 <= i <= l.colorCount as int
      invariant forall j :: 0 <= j < i ==> !ColorNamed(c, l, j, name)
    {
      var found := ColorIs(c, l, i, name);
      if found {
        ColorFromLater(c, l, name, 0, i);
        return Some(c.colors[l.colorOffset as int + i].value);
      }
      i := i + 1;
    }
    ColorFromLater(c, l, name, 0, i);
    return None;
  }
}
