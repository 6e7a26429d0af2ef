/** Which byte of a CFG1 and of a PFX1 blob holds what, position by position as
    FORMAT.md and device_config.h lay them out. */
module BlobLayouts {
  import Crc32
  import C = DeviceConfig
  import opened Bytes
  import opened FixtureProfile
  import P = ProfileFormat

  // ---- CFG1 --------------------------------------------------------------

  /** Bit for bit: USB MIDI host, skip Wi-Fi, Art-Net sync broadcast. */
  predicate FlagsAt(flags: bv8, usbMidiHost: bool, skipWifi: bool, syncBroadcast: bool) {
    (flags & 1 == 1 <==> usbMidiHost) && (flags & 2 == 2 <==> skipWifi) && (flags & 4 == 4 <==> syncBroadcast) &&
    flags & 0xF8 == 0
  }

  lemma FlagsPlaced(c: C.Config)
    ensures FlagsAt(C.Flags(c), c.usbMidiHost, c.skipWifi, c.artnetSyncBroadcast)
  {
  }

  /** Little-endian: the low byte first. */
  predicate Word32At(d: seq<bv8>, at: nat, v: bv32) {
    at + 4 <= |d| &&
    v == (d[at] as bv32) + 0x100 * (d[at + 1] as bv32) + 0x1_0000 * (d[at + 2] as bv32) + 0x100_0000 * (d[at + 3] as bv32)
  }

  predicate Word16At(d: seq<bv8>, at: nat, v: bv16) {
    at + 2 <= |d| && v == (d[at] as bv16) + 0x100 * (d[at + 1] as bv16)
  }

  lemma Digits32(v: bv32)
    ensures v == (C.Le32(v)[0] as bv32) + 0x100 * (C.Le32(v)[1] as bv32) + 0x1_0000 * (C.Le32(v)[2] as bv32)
                 + 0x100_0000 * (C.Le32(v)[3] as bv32)
  {
  }

  lemma Digits16(v: bv16)
    ensures v == (C.Le16(v)[0] as bv16) + 0x100 * (C.Le16(v)[1] as bv16)
  {
  }

  lemma Placed32(d: seq<bv8>, at: nat, v: bv32)
    requires at + 4 <= |d| && d[at..at + 4] == C.Le32(v)
    ensures Word32At(d, at, v)
  {
    Digits32(v);
    assert forall i :: 0 <= i < 4 ==> d[at + i] == C.Le32(v)[i];
  }

  lemma Placed16(d: seq<bv8>, at: nat, v: bv16)
    requires at + 2 <= |d| && d[at..at + 2] == C.Le16(v)
    ensures Word16At(d, at, v)
  {
    Digits16(v);
    assert forall i :: 0 <= i < 2 ==> d[at + i] == C.Le16(v)[i];
  }

  /** The C string's bytes, cut to the field, then zeros. */
  predicate TextAt(d: seq<bv8>, at: nat, n: nat, s: seq<bv8>) {
    at + n <= |d| && forall k :: 0 <= k < n ==> d[at + k] == if k < |C.CString(s)| then C.CString(s)[k] else 0
  }

  lemma PlacedText(d: seq<bv8>, at: nat, n: nat, s: seq<bv8>)
    requires at + n <= |d| && d[at..at + n] == C.Padded(s, n)
    ensures TextAt(d, at, n, s)
  {
    forall k | 0 <= k < n ensures d[at + k] == if k < |C.CString(s)| then C.CString(s)[k] else 0 {
      assert d[at + k] == C.Padded(s, n)[k];
    }
  }

  /** An encoded configuration. */
  lemma ConfigLayout(c: C.Config)
    ensures var d := C.Encoded(c);
            |d| == 150 && d[..4] == [0x43, 0x46, 0x47, 0x31] && d[4] == 2 &&
            FlagsAt(d[5], c.usbMidiHost, c.skipWifi, c.artnetSyncBroadcast) &&
            TextAt(d, 8, 32, c.wifiSsid) && TextAt(d, 40, 64, c.wifiPass) &&
            Word32At(d, 104, c.artnetFallbackIp) && Word16At(d, 108, c.artnetPort) &&
            d[110] == c.dmxTxGpio && d[111] == c.dmxRxGpio && d[112] == c.dmxRtsGpio && d[113] == c.ledGpio &&
            Word32At(d, 146, Crc32.Crc(d[..146]))
  {
    var d := C.Encoded(c);
    C.Layout(c);
    assert forall i :: 0 <= i < 6 ==> d[i] == d[..6][i];
    assert d[..4] == d[..6][..4];
    FlagsPlaced(c);
    PlacedText(d, 8, 32, c.wifiSsid);
    PlacedText(d, 40, 64, c.wifiPass);
    Placed32(d, 104, c.artnetFallbackIp);
    Placed16(d, 108, c.artnetPort);
    assert forall i :: 110 <= i < 114 ==> d[i] == d[110..114][i - 110];
    Placed32(d, 146, Crc32.Crc(d[..146]));
  }

  /** The flags of any accepted blob; one of version 1 never asks for sync broadcast,
      and no version but 1 and 2 is accepted. */
  lemma ReadFlags(d: seq<bv8>)
    requires C.Accepted(d)
    ensures d[4] == 1 || d[4] == 2
    ensures C.Decoded(d).usbMidiHost <==> d[5] & 1 == 1
    ensures C.Decoded(d).skipWifi <==> d[5] & 2 == 2
    ensures C.Decoded(d).artnetSyncBroadcast <==> d[4] == 2 && d[5] & 4 == 4
  {
    Masks(d[5]);
  }

  lemma Masks(f: bv8)
    ensures (f & 1 != 0 <==> f & 1 == 1) && (f & 2 != 0 <==> f & 2 == 2) && (f & 4 != 0 <==> f & 4 == 4)
  {
  }

  // ---- PFX1 --------------------------------------------------------------

  /** Where the channel table of an encoded profile starts. */
  function CapsStart(b: P.Builder): nat {
    (if b.ranges == [] then 9 else 11) + |b.name|
  }

  function RangesStart(b: P.Builder): nat {
    CapsStart(b) + 5 * |b.caps|
  }

  function NamesStart(b: P.Builder): nat {
    RangesStart(b) + 7 * |b.ranges|
  }

  /** Magic, version, flags, footprint and the counts. */
  predicate HeaderAt(d: seq<byte>, b: P.Builder) {
    |d| >= 11 - (if b.ranges == [] then 2 else 0) && d[..4] == [0x50, 0x46, 0x58, 0x31] &&
    d[4] == (if b.ranges == [] then 1 else 2) && d[5] == 0 && d[6] == b.footprint &&
    d[7] as int == |b.caps| && d[8] as int == |b.name| &&
    (b.ranges != [] ==> d[9] as int + 256 * (d[10] as int) == |b.ranges|)
  }

  predicate CapAt(d: seq<byte>, at: nat, c: ChannelMap) {
    at + 5 <= |d| && d[at] == c.cap && d[at + 1] == c.coarse && d[at + 2] == c.fine && d[at + 3] == c.defaultValue &&
    d[at + 4] == c.flags
  }

  /** A range record; the offset of its name leads to the name in the name table. */
  predicate RangeAt(d: seq<byte>, at: nat, s: P.RangeSpec, names: nat) {
    at + 7 <= |d| && d[at] == s.capIndex && d[at + 1] == s.dmxFrom && d[at + 2] == s.dmxTo &&
    d[at + 3] == (if s.continuous then 1 else 0) && d[at + 6] == 0 &&
    var off := d[at + 4] as int + 256 * (d[at + 5] as int);
    if s.name == [] then off == 0xFFFF else Holds(d, names + off, s.name + [0])
  }

  lemma {:induction false} ProfileStarts(b: P.Builder)
    requires P.WithinLimits(b) && |b.name| < 256
    ensures var d := P.Encoded(b);
            P.HeaderOk(d) && P.CapTable(d) == CapsStart(b) && P.RangeTable(d) == RangesStart(b) &&
            P.NameBlobAt(d) == NamesStart(b) && d[8] as int == |b.name| &&
            (b.ranges != [] ==> d[9] as int + 256 * (d[10] as int) == |b.ranges|)
  {
    P.Layout(b);
    P.LayoutHeader(b);
  }

  lemma {:induction false} ProfileHeader(b: P.Builder)
    requires P.WithinLimits(b) && |b.name| < 256
    ensures HeaderAt(P.Encoded(b), b)
  {
    P.Layout(b);
    ProfileStarts(b);
  }

  lemma {:induction false} CapsStand(b: P.Builder)
    requires P.WithinLimits(b) && |b.name| < 256
    ensures Holds(P.Encoded(b), CapsStart(b), Flat(P.CapRows(b.caps)))
  {
    ProfileTables(b);
  }

  lemma {:induction false} ProfileTables(b: P.Builder)
    requires P.WithinLimits(b) && |b.name| < 256
    ensures var d := P.Encoded(b);
            Holds(d, CapsStart(b), Flat(P.CapRows(b.caps))) && Holds(d, RangesStart(b), Flat(P.RangeRows(b.ranges))) &&
            NamesStart(b) <= |d| && d[NamesStart(b)..] == P.NameBlob(b.ranges)
  {
    P.Layout(b);
    ProfileStarts(b);
    FlatSize(P.CapRows(b.caps), 5);
    FlatSize(P.RangeRows(b.ranges), 7);
  }

  lemma CapRowAt(d: seq<byte>, p: nat, c: ChannelMap)
    requires Holds(d, p, P.CapRow(c))
    ensures CapAt(d, p, c)
  {
    var row := P.CapRow(c);
    HoldsByte(d, p, row, 0);
    HoldsByte(d, p, row, 1);
    HoldsByte(d, p, row, 2);
    HoldsByte(d, p, row, 3);
    HoldsByte(d, p, row, 4);
  }

  /** Channel `i` of an encoded profile. */
  lemma {:induction false} ProfileCap(b: P.Builder, i: nat)
    requires P.WithinLimits(b) && |b.name| < 256 && i < |b.caps|
    ensures CapAt(P.Encoded(b), CapsStart(b) + 5 * i, b.caps[i])
  {
    CapsStand(b);
    CapInTable(P.Encoded(b), CapsStart(b), b.caps, i);
  }

  lemma {:induction false} CapInTable(d: seq<byte>, at: nat, caps: seq<ChannelMap>, i: nat)
    requires Holds(d, at, Flat(P.CapRows(caps))) && i < |caps|
    ensures CapAt(d, at + 5 * i, caps[i])
  {
    FlatSize(P.CapRows(caps)[..i], 5);
    RowHeld(d, at, P.CapRows(caps), i, 5 * i);
    CapRowAt(d, at + 5 * i, caps[i]);
  }

  lemma RangeRowAt(d: seq<byte>, p: nat, ranges: seq<P.RangeSpec>, i: nat, names: nat)
    requires i < |ranges| && Holds(d, p, P.RangeRow(ranges, i))
    requires ranges[i].name != [] ==> Holds(d, names + P.NameOff(ranges, i), ranges[i].name + [0])
    ensures RangeAt(d, p, ranges[i], names)
  {
    var row := P.RangeRow(ranges, i);
    HoldsByte(d, p, row, 0);
    HoldsByte(d, p, row, 1);
    HoldsByte(d, p, row, 2);
    HoldsByte(d, p, row, 3);
    HoldsByte(d, p, row, 4);
    HoldsByte(d, p, row, 5);
    HoldsByte(d, p, row, 6);
    LittleEndian(P.NameOff(ranges, i), 0);
  }

  /** Function range `i`, its name found through the name table. */
  lemma {:induction false} ProfileRange(b: P.Builder, i: nat)
    requires P.WithinLimits(b) && |b.name| < 256 && i < |b.ranges|
    ensures RangeAt(P.Encoded(b), RangesStart(b) + 7 * i, b.ranges[i], NamesStart(b))
  {
    ProfileTables(b);
    NameKept(b.ranges, i);
    RangeInTable(P.Encoded(b), RangesStart(b), b.ranges, i, NamesStart(b));
  }

  lemma {:induction false} RangeInTable(d: seq<byte>, at: nat, ranges: seq<P.RangeSpec>, i: nat, names: nat)
    requires Holds(d, at, Flat(P.RangeRows(ranges))) && i < |ranges|
    requires names <= |d| && d[names..] == P.NameBlob(ranges)
    requires NameStands(ranges, i)
    ensures RangeAt(d, at + 7 * i, ranges[i], names)
  {
    FlatSize(P.RangeRows(ranges)[..i], 7);
    RowHeld(d, at, P.RangeRows(ranges), i, 7 * i);
    NameReached(d, ranges, i, names);
    RangeRowAt(d, at + 7 * i, ranges, i, names);
  }

  predicate NameStands(ranges: seq<P.RangeSpec>, i: nat)
    requires i < |ranges|
  {
    ranges[i].name != [] ==> Holds(P.NameBlob(ranges), P.NameOff(ranges, i), ranges[i].name + [0])
  }

  lemma {:induction false} NameKept(ranges: seq<P.RangeSpec>, i: nat)
    requires i < |ranges| && |P.NameBlob(ranges)| <= MAX_RANGE_NAME_BLOB
    ensures NameStands(ranges, i)
  {
    if ranges[i].name != [] { P.NameInBlob(ranges, i); }
  }

  lemma {:induction false} NameReached(d: seq<byte>, ranges: seq<P.RangeSpec>, i: nat, names: nat)
    requires i < |ranges| && NameStands(ranges, i) && names <= |d| && d[names..] == P.NameBlob(ranges)
    ensures ranges[i].name != [] ==> Holds(d, names + P.NameOff(ranges, i), ranges[i].name + [0])
  {
    if ranges[i].name != [] {
      NameHeld(d, names, P.NameBlob(ranges), P.NameOff(ranges, i) as int, ranges[i].name + [0]);
    }
  }
}
