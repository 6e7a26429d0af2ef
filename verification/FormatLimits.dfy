/** Exactly which profiles and controllers the encoders can write and the parsers
    accept, in the numbers of FORMAT.md. */
module FormatLimits {
  import opened Bytes
  import opened FixtureProfile
  import P = ProfileFormat
  import M = Mdef
  import C = ControllerFormat

  // ---- PFX1 --------------------------------------------------------------

  /** What the named ranges' names take up, each with its NUL. */
  function NameBytes(ranges: seq<P.RangeSpec>): nat {
    if ranges == [] then 0
    else NameBytes(ranges[..|ranges| - 1])
         + if ranges[|ranges| - 1].name == [] then 0 else |ranges[|ranges| - 1].name| + 1
  }

  lemma {:induction false} NameBlobSize(ranges: seq<P.RangeSpec>)
    ensures |P.NameBlob(ranges)| == NameBytes(ranges)
  {
    if ranges == [] {
    } else {
      var n := |ranges| - 1;
      NameBlobSize(ranges[..n]);
      assert P.NameChunks(ranges)[..n] == P.NameChunks(ranges[..n]);
    }
  }

  predicate ChannelAllowed(c: ChannelMap, footprint: byte) {
    c.coarse < footprint && (c.fine == 255 || c.fine < footprint)
  }

  predicate RangeAllowed(r: P.RangeSpec, channels: nat) {
    r.capIndex as int < channels && r.dmxFrom <= r.dmxTo
  }

  /** At most 24 channels and 192 ranges, 2048 bytes of names, every offset inside the
      footprint, every range on a channel and not empty. */
  predicate ProfileAllowed(b: P.Builder) {
    |b.caps| <= 24 && |b.ranges| <= 192 && NameBytes(b.ranges) <= 2048 &&
    (forall i :: 0 <= i < |b.caps| ==> ChannelAllowed(b.caps[i], b.footprint)) &&
    forall i :: 0 <= i < |b.ranges| ==> RangeAllowed(b.ranges[i], |b.caps|)
  }

  /** A profile whose counts fit the header parses exactly when it is allowed. */
  lemma ProfileAccepted(b: P.Builder)
    requires |b.name| < 256 && |b.caps| < 256 && |b.ranges| < 65536
    ensures P.Accepted(P.Encoded(b)) <==> ProfileAllowed(b)
  {
    P.RoundTrip(b);
    NameBlobSize(b.ranges);
    assert forall i :: 0 <= i < |b.caps| ==>
      (ChannelOk(b.caps[i], b.footprint) <==> ChannelAllowed(b.caps[i], b.footprint));
  }

  // ---- MDF1 --------------------------------------------------------------

  /** Both without a channel, or a range within the sixteen. */
  predicate ChannelPair(from: byte, to: byte) {
    (from == 255 && to == 255) || from <= to <= 15
  }

  predicate Addresses(from: byte, to: byte) {
    from <= to <= 127
  }

  /** Addresses and colour values below 128, three encoder modes, notes or CCs, two LED
      semantics, channels in pairs wherever the version carries them. */
  predicate ControllerAllowed(b: C.Builder, wide: bool) {
    b.midiChannel <= 16 &&
    (forall i :: 0 <= i < |b.pads| ==> PadAllowed(b.pads[i], wide)) &&
    (forall i :: 0 <= i < |b.faders| ==> FaderAllowed(b.faders[i], wide)) &&
    (forall i :: 0 <= i < |b.encoders| ==> EncoderAllowed(b.encoders[i])) &&
    (forall i :: 0 <= i < |b.leds| ==> LedAllowed(b.leds[i], wide)) &&
    forall j :: 0 <= j < |C.ColorsOf(b.leds)| ==> C.ColorsOf(b.leds)[j].value < 128
  }

  predicate PadAllowed(p: M.PadRange, wide: bool) {
    Addresses(p.noteFrom, p.noteTo) && (wide ==> ChannelPair(p.channelFrom, p.channelTo))
  }

  predicate FaderAllowed(f: C.FaderSpec, wide: bool) {
    Addresses(f.ccFrom, f.ccTo) && (wide ==> ChannelPair(f.channelFrom, f.channelTo))
  }

  predicate EncoderAllowed(e: M.EncoderRange) {
    Addresses(e.ccFrom, e.ccTo) && e.mode <= 2
  }

  predicate LedAllowed(l: C.LedSpec, wide: bool) {
    l.msgType <= 1 && Addresses(l.addrFrom, l.addrTo) && l.semantic <= 1 &&
    (wide ==> ChannelPair(l.channelFrom, l.channelTo))
  }

  /** The sizes the encoder reports no error for. */
  predicate SizesAllowed(b: C.Builder, nameBytes: nat) {
    |b.name| <= 255 && |b.pads| <= 32 && |b.faders| <= 16 && |b.encoders| <= 16 && |b.leds| <= 8 &&
    |C.ColorsOf(b.leds)| <= 96 && |b.initBlobs| <= 8 && nameBytes <= 1024 &&
    forall i :: 0 <= i < |b.initBlobs| ==> |b.initBlobs[i]| <= 64
  }

  lemma SizesAre(b: C.Builder)
    ensures C.Encodable(b) <==> SizesAllowed(b, |C.NameBlob(b)|)
  {
  }

  lemma PadsAre(b: C.Builder, wide: bool)
    ensures forall i :: 0 <= i < |b.pads| ==> (PadAllowed(b.pads[i], wide) <==> C.PadValuesOk(b.pads[i], wide))
    ensures forall i :: 0 <= i < |b.faders| ==> (FaderAllowed(b.faders[i], wide) <==> C.FaderValuesOk(b.faders[i], wide))
    ensures forall i :: 0 <= i < |b.encoders| ==> (EncoderAllowed(b.encoders[i]) <==> M.EncoderOk(b.encoders[i]))
    ensures forall i :: 0 <= i < |b.leds| ==> (LedAllowed(b.leds[i], wide) <==> C.LedValuesOk(b.leds[i], wide))
  {
  }

  /** What is encoded parses exactly when every value is allowed. */
  lemma ControllerAccepted(b: C.Builder)
    requires SizesAllowed(b, |C.NameBlob(b)|)
    ensures C.Accepted(C.Encoded(b)) <==> ControllerAllowed(b, C.Wide(b))
  {
    SizesAre(b);
    C.RoundTrip(b);
    PadsAre(b, C.Wide(b));
  }
}
