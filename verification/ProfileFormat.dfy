/** The PFX1 blob of a fixture profile: profile_encoder.cpp writes it (version 1
    without function ranges, version 2 with) and parseProfile in
    fixture_profile.cpp reads it. */
module ProfileFormat {
  import opened Bytes
  import opened FixtureProfile

  const MAGIC: seq<byte> := [0x50, 0x46, 0x58, 0x31]

  /** An empty name means unnamed. */
  datatype RangeSpec = RangeSpec(capIndex: byte, dmxFrom: byte, dmxTo: byte, continuous: bool, name: seq<byte>)

  datatype Builder = Builder(footprint: byte, name: seq<byte>, caps: seq<ChannelMap>, ranges: seq<RangeSpec>)

  // ---- what is written ---------------------------------------------------

  function Version(b: Builder): byte {
    if b.ranges == [] then 1 else 2
  }

  function Header(b: Builder): seq<byte> {
    MAGIC + [Version(b), 0, b.footprint, |b.caps| % 256, |b.name| % 256]
    + if b.ranges == [] then [] else Le16(|b.ranges| % 65536)
  }

  function CapRow(c: ChannelMap): (r: seq<byte>)
    ensures |r| == 5
  {
    [c.cap, c.coarse, c.fine, c.defaultValue, c.flags]
  }

  function CapRows(caps: seq<ChannelMap>): (rows: seq<seq<byte>>)
    ensures |rows| == |caps| && AllWide(rows, 5)
  {
    seq(|caps|, i requires 0 <= i < |caps| => CapRow(caps[i]))
  }

  function NameChunk(name: seq<byte>): seq<byte> {
    if name == [] then [] else name + [0]
  }

  function NameChunks(ranges: seq<RangeSpec>): (chunks: seq<seq<byte>>)
    ensures |chunks| == |ranges|
  {
    seq(|ranges|, i requires 0 <= i < |ranges| => NameChunk(ranges[i].name))
  }

  function NameBlob(ranges: seq<RangeSpec>): seq<byte> {
    Flat(NameChunks(ranges))
  }

  function NameOff(ranges: seq<RangeSpec>, i: nat): u16
    requires i < |ranges|
  {
    if ranges[i].name == [] then UNNAMED else |Flat(NameChunks(ranges)[..i])| % 65536
  }

  function RangeRow(ranges: seq<RangeSpec>, i: nat): (r: seq<byte>)
    requires i < |ranges|
    ensures |r| == 7
  {
    var s := ranges[i];
    [s.capIndex, s.dmxFrom, s.dmxTo, if s.continuous then 1 else 0] + Le16(NameOff(ranges, i)) + [0]
  }

  function RangeRows(ranges: seq<RangeSpec>): (rows: seq<seq<byte>>)
    ensures |rows| == |ranges| && AllWide(rows, 7)
  {
    seq(|ranges|, i requires 0 <= i < |ranges| => RangeRow(ranges, i))
  }

  function Encoded(b: Builder): seq<byte> {
    Header(b) + b.name + Flat(CapRows(b.caps)) + Flat(RangeRows(b.ranges)) + NameBlob(b.ranges)
  }

  // ---- what is read ------------------------------------------------------

  predicate HeaderOk(d: seq<byte>) {
    |d| >= 9 && d[..4] == MAGIC && (d[4] == 1 || d[4] == 2) && d[5] == 0 && d[7] <= MAX_CAPS &&
    (d[4] == 2 ==> |d| >= 11 && U16At(d, 9) <= MAX_RANGES)
  }

  function RangeCount(d: seq<byte>): nat
    requires HeaderOk(d)
  {
    if d[4] == 1 then 0 else U16At(d, 9)
  }

  function CapTable(d: seq<byte>): nat
    requires HeaderOk(d)
  {
    (if d[4] == 1 then 9 else 11) + d[8] as int
  }

  function RangeTable(d: seq<byte>): nat
    requires HeaderOk(d)
  {
    CapTable(d) + 5 * d[7] as int
  }

  function NameBlobAt(d: seq<byte>): nat
    requires HeaderOk(d)
  {
    RangeTable(d) + 7 * RangeCount(d)
  }

  predicate SizesOk(d: seq<byte>)
    requires HeaderOk(d)
  {
    NameBlobAt(d) <= |d| && (d[4] == 2 ==> |d| - NameBlobAt(d) <= MAX_RANGE_NAME_BLOB)
  }

  function CapOf(row: seq<byte>): ChannelMap
    requires |row| == 5
  {
    ChannelMap(row[0], row[1], row[2], row[3], row[4])
  }

  function RangeOf(row: seq<byte>): FunctionRange
    requires |row| == 7
  {
    FunctionRange(row[0], row[1], row[2], row[3] % 2 == 1, U16At(row, 4), row[6])
  }

  function CapsAt(d: seq<byte>, at: nat, n: nat): (r: seq<ChannelMap>)
    requires at + 5 * n <= |d|
    ensures |r| == n
  {
    seq(n, i requires 0 <= i < n => CapOf(d[at + 5 * i..at + 5 * i + 5]))
  }

  function RangesAt(d: seq<byte>, at: nat, n: nat): (r: seq<FunctionRange>)
    requires at + 7 * n <= |d|
    ensures |r| == n
  {
    seq(n, i requires 0 <= i < n => RangeOf(d[at + 7 * i..at + 7 * i + 7]))
  }

  /** The profile laid out in `d`. */
  function Decoded(d: seq<byte>): (p: Profile)
    requires HeaderOk(d) && SizesOk(d)
    ensures |p.channels| == d[7] && |p.ranges| == RangeCount(d)
  {
    Profile(
      d[6],
      CapsAt(d, CapTable(d), d[7] as int),
      RangesAt(d, RangeTable(d), RangeCount(d)),
      if d[4] == 1 then [] else d[NameBlobAt(d)..])
  }

  ghost predicate Accepted(d: seq<byte>) {
    HeaderOk(d) && SizesOk(d) && Wellformed(Decoded(d))
  }

  // ---- round trip --------------------------------------------------------

  /** The profile a builder describes. */
  function Described(b: Builder): (p: Profile)
    ensures |p.ranges| == |b.ranges|
  {
    Profile(
      b.footprint,
      b.caps,
      seq(|b.ranges|, i requires 0 <= i < |b.ranges| =>
        var s := b.ranges[i];
        FunctionRange(s.capIndex, s.dmxFrom, s.dmxTo, s.continuous, NameOff(b.ranges, i), 0)),
      NameBlob(b.ranges))
  }

  /** The counts fit the header's fields. */
  predicate Representable(b: Builder) {
    |b.name| < 256 && |b.caps| < 256 && |b.ranges| < 65536
  }

  predicate WithinLimits(b: Builder) {
    |b.caps| <= MAX_CAPS && |b.ranges| <= MAX_RANGES && |NameBlob(b.ranges)| <= MAX_RANGE_NAME_BLOB &&
    (forall i :: 0 <= i < |b.caps| ==> ChannelOk(b.caps[i], b.footprint)) &&
    (forall i :: 0 <= i < |b.ranges| ==>
      b.ranges[i].capIndex < |b.caps| && b.ranges[i].dmxFrom <= b.ranges[i].dmxTo)
  }

  lemma HeaderReadsBack(b: Builder, rest: seq<byte>)
    requires Representable(b)
    ensures var d := Header(b) + rest;
            |d| >= 9 && d[4] == Version(b) && d[6] == b.footprint && d[7] == |b.caps| && d[8] == |b.name| &&
            (HeaderOk(d) <==> |b.caps| <= MAX_CAPS && |b.ranges| <= MAX_RANGES) &&
            (HeaderOk(d) ==> RangeCount(d) == |b.ranges| && CapTable(d) == |Header(b)| + |b.name|)
  {
    var d, h := Header(b) + rest, Header(b);
    assert d[..4] == MAGIC;
    assert forall i :: 0 <= i < |h| ==> d[i] == h[i];
    if b.ranges != [] {
      assert d[9..11] == h[9..11] == Le16(|b.ranges|);
      Le16RoundTrip(d, 9, |b.ranges|);
    }
  }

  lemma Slices(a: seq<byte>, b: seq<byte>, c: seq<byte>, e: seq<byte>, f: seq<byte>)
    ensures var d := a + b + c + e + f; var o := |a| + |b|;
            d == a + (b + c + e + f) &&
            d[o..o + |c|] == c && d[o + |c|..o + |c| + |e|] == e && d[o + |c| + |e|..] == f
  {
  }

  lemma CapsReadBack(d: seq<byte>, at: nat, caps: seq<ChannelMap>)
    requires at + 5 * |caps| <= |d|
    requires d[at..at + 5 * |caps|] == Flat(CapRows(caps))
    ensures CapsAt(d, at, |caps|) == caps
  {
    FlatSize(CapRows(caps), 5);
    forall i | 0 <= i < |caps| ensures CapOf(d[at + 5 * i..at + 5 * i + 5]) == caps[i] {
      TableRow(d, at, CapRows(caps), 5, i);
    }
  }

  lemma RangesReadBack(d: seq<byte>, at: nat, b: Builder)
    requires at + 7 * |b.ranges| <= |d|
    requires d[at..at + 7 * |b.ranges|] == Flat(RangeRows(b.ranges))
    ensures RangesAt(d, at, |b.ranges|) == Described(b).ranges
  {
    FlatSize(RangeRows(b.ranges), 7);
    forall i | 0 <= i < |b.ranges| ensures RangeOf(d[at + 7 * i..at + 7 * i + 7]) == Described(b).ranges[i] {
      TableRow(d, at, RangeRows(b.ranges), 7, i);
      RangeRowReadsBack(b, i);
    }
  }

  lemma RangeRowReadsBack(b: Builder, i: nat)
    requires i < |b.ranges|
    ensures RangeOf(RangeRow(b.ranges, i)) == Described(b).ranges[i]
  {
    var row := RangeRow(b.ranges, i);
    assert row[4..6] == Le16(NameOff(b.ranges, i));
    Le16RoundTrip(row, 4, NameOff(b.ranges, i));
  }

  lemma LayoutHeader(b: Builder)
    requires Representable(b)
    ensures var d := Encoded(b);
            (HeaderOk(d) <==> |b.caps| <= MAX_CAPS && |b.ranges| <= MAX_RANGES) &&
            (HeaderOk(d) ==>
              d[4] == Version(b) && d[6] == b.footprint && d[7] == |b.caps| && RangeCount(d) == |b.ranges| &&
              CapTable(d) == |Header(b)| + |b.name|)
  {
    var caps, ranges := Flat(CapRows(b.caps)), Flat(RangeRows(b.ranges));
    Slices(Header(b), b.name, caps, ranges, NameBlob(b.ranges));
    HeaderReadsBack(b, b.name + caps + ranges + NameBlob(b.ranges));
  }

  /** Where the tables of an encoded profile lie. */
  lemma Layout(b: Builder)
    requires Representable(b)
    ensures var d := Encoded(b);
            (HeaderOk(d) <==> |b.caps| <= MAX_CAPS && |b.ranges| <= MAX_RANGES) &&
            (HeaderOk(d) ==>
              d[4] == Version(b) && d[6] == b.footprint && d[7] == |b.caps| && RangeCount(d) == |b.ranges| &&
              NameBlobAt(d) + |NameBlob(b.ranges)| == |d| &&
              d[CapTable(d)..RangeTable(d)] == Flat(CapRows(b.caps)) &&
              d[RangeTable(d)..NameBlobAt(d)] == Flat(RangeRows(b.ranges)) &&
              d[NameBlobAt(d)..] == NameBlob(b.ranges))
  {
    LayoutHeader(b);
    Slices(Header(b), b.name, Flat(CapRows(b.caps)), Flat(RangeRows(b.ranges)), NameBlob(b.ranges));
    FlatSize(CapRows(b.caps), 5);
    FlatSize(RangeRows(b.ranges), 7);
  }

  /** What is laid out is what was described. */
  lemma DecodedIsDescribed(b: Builder)
    requires Representable(b) && HeaderOk(Encoded(b))
    ensures SizesOk(Encoded(b)) <==> |NameBlob(b.ranges)| <= MAX_RANGE_NAME_BLOB
    ensures SizesOk(Encoded(b)) ==> Decoded(Encoded(b)) == Described(b)
  {
    Layout(b);
    var d := Encoded(b);
    CapsReadBack(d, CapTable(d), b.caps);
    RangesReadBack(d, RangeTable(d), b);
    if b.ranges == [] { assert NameChunks(b.ranges) == []; }
  }

  /** Range `i`'s name starts at its offset, NUL-terminated. */
  lemma NameInBlob(ranges: seq<RangeSpec>, i: nat)
    requires i < |ranges| && ranges[i].name != [] && |NameBlob(ranges)| <= MAX_RANGE_NAME_BLOB
    ensures var off := NameOff(ranges, i); var name := ranges[i].name;
            off + |name| < |NameBlob(ranges)| &&
            NameBlob(ranges)[off..off + |name| + 1] == name + [0] &&
            Terminated(NameBlob(ranges), off)
  {
    NameChunkAt(NameChunks(ranges), i, ranges[i].name);
  }

  /** Encoding is exactly as strict as parsing: a builder whose counts fit the
      header yields an accepted blob if and only if it is within the limits, and
      then the parser reads back precisely what was described. */
  lemma RoundTrip(b: Builder)
    requires Representable(b)
    ensures Accepted(Encoded(b)) <==> WithinLimits(b)
    ensures WithinLimits(b) ==> Decoded(Encoded(b)) == Described(b)
  {
    Layout(b);
    if HeaderOk(Encoded(b)) {
      DecodedIsDescribed(b);
      if SizesOk(Encoded(b)) { DescribedWellformed(b); }
    }
  }

  lemma DescribedWellformed(b: Builder)
    requires |NameBlob(b.ranges)| <= MAX_RANGE_NAME_BLOB
    ensures Wellformed(Described(b)) <==>
              (forall i :: 0 <= i < |b.caps| ==> ChannelOk(b.caps[i], b.footprint)) &&
              (forall i :: 0 <= i < |b.ranges| ==>
                b.ranges[i].capIndex < |b.caps| && b.ranges[i].dmxFrom <= b.ranges[i].dmxTo)
  {
    var p := Described(b);
    forall i | 0 <= i < |b.ranges|
      ensures RangeOk(p.ranges[i], |b.caps|, p.nameBlob) <==>
                b.ranges[i].capIndex < |b.caps| && b.ranges[i].dmxFrom <= b.ranges[i].dmxTo
    {
      if b.ranges[i].name != [] { NameInBlob(b.ranges, i); }
    }
  }

  /** A declared NUL-free name selects the first range so named on the first
      channel of its capability, and writes one byte, within that range. */
  lemma DeclaredNameSelects(b: Builder, i: nat, value01: real)
    requires WithinLimits(b) && i < |b.ranges|
    requires forall k :: 0 <= k < |b.ranges| ==> NulFree(b.ranges[k].name)
    requires var s := b.ranges[i];
             s.name != [] && ChannelIndex(b.caps, b.caps[s.capIndex].cap) == s.capIndex
    ensures Wellformed(Described(b))
    ensures var s := b.ranges[i];
            exists j :: 0 <= j <= i && b.ranges[j].name == s.name && b.ranges[j].capIndex == s.capIndex &&
              (forall k :: 0 <= k < j ==> !(b.ranges[k].name == s.name && b.ranges[k].capIndex == s.capIndex)) &&
              NameWrites(Described(b), b.caps[s.capIndex].cap, s.name, value01)
                == [Write(b.caps[s.capIndex].coarse, RangeValue(Described(b).ranges[j], value01))] &&
              b.ranges[j].dmxFrom <= RangeValue(Described(b).ranges[j], value01) <= b.ranges[j].dmxTo
  {
    DescribedWellformed(b);
    var p, s := Described(b), b.ranges[i];
    forall k | 0 <= k < |b.ranges| ensures NamedSo(p.ranges[k], p.nameBlob, s.capIndex, s.name) <==>
                                             b.ranges[k].name == s.name && b.ranges[k].capIndex == s.capIndex {
      DescribedName(b, k, s.capIndex, s.name);
    }
    var j := RangeNamed(p.ranges, p.nameBlob, s.capIndex, s.name);
    assert j <= i;
    assert NameWrites(p, b.caps[s.capIndex].cap, s.name, value01)
           == [Write(b.caps[s.capIndex].coarse, RangeValue(p.ranges[j], value01))];
  }

  lemma DescribedName(b: Builder, k: nat, channel: nat, name: seq<byte>)
    requires WithinLimits(b) && k < |b.ranges| && NulFree(b.ranges[k].name) && name != []
    ensures NamedSo(Described(b).ranges[k], Described(b).nameBlob, channel, name) <==>
              b.ranges[k].name == name && b.ranges[k].capIndex == channel
  {
    var p := Described(b);
    if b.ranges[k].name != [] {
      NameInBlob(b.ranges, k);
      NameReadsBack(p.nameBlob, p.ranges[k].nameOff, b.ranges[k].name);
    }
  }

  // ---- the program -------------------------------------------------------

  method EncodeHeader(b: Builder) returns (blob: seq<byte>)
    ensures blob == Header(b)
  {
    blob := MAGIC;
    blob := blob + [if b.ranges == [] then 1 else 2];
    blob := blob + [0];
    blob := blob + [b.footprint];
    blob := blob + [|b.caps| % 256];
    blob := blob + [|b.name| % 256];
    if b.ranges != [] {
      blob := blob + Le16(|b.ranges| % 65536);
    }
  }

  method AppendCaps(blob: seq<byte>, caps: seq<ChannelMap>) returns (r: seq<byte>)
    ensures r == blob + Flat(CapRows(caps))
  {
    r := blob;
    for i := 0 to |caps|
      invariant r == blob + Flat(CapRows(caps)[..i])
    {
      FlatPush(CapRows(caps), i);
      var c := caps[i];
      r := r + [c.cap, c.coarse, c.fine, c.defaultValue, c.flags];
    }
    assert CapRows(caps)[..|caps|] == CapRows(caps);
  }

  method AppendRanges(blob: seq<byte>, ranges: seq<RangeSpec>, nameOffs: seq<u16>) returns (r: seq<byte>)
    requires |nameOffs| == |ranges| && forall i :: 0 <= i < |ranges| ==> nameOffs[i] == NameOff(ranges, i)
    ensures r == blob + Flat(RangeRows(ranges))
  {
    r := blob;
    for i := 0 to |ranges|
      invariant r == blob + Flat(RangeRows(ranges)[..i])
    {
      FlatPush(RangeRows(ranges), i);
      var s := ranges[i];
      r := r + ([s.capIndex, s.dmxFrom, s.dmxTo, if s.continuous then 1 else 0] + Le16(nameOffs[i]) + [0]);
    }
    assert RangeRows(ranges)[..|ranges|] == RangeRows(ranges);
  }

  method Encode(b: Builder) returns (blob: seq<byte>)
    ensures blob == Encoded(b)
  {
    blob := EncodeHeader(b);
    blob := blob + b.name;
    blob := AppendCaps(blob, b.caps);
    if b.ranges == [] {
      assert blob + [] + [] == blob;
      return;
    }
    var nameBlob, nameOffs := CollectNames(b.ranges);
    blob := AppendRanges(blob, b.ranges, nameOffs);
    blob := blob + nameBlob;
  }

  /** Assigns name offsets in range order. */
  method CollectNames(ranges: seq<RangeSpec>) returns (nameBlob: seq<byte>, nameOffs: seq<u16>)
    ensures nameBlob == NameBlob(ranges)
    ensures |nameOffs| == |ranges| && forall i :: 0 <= i < |ranges| ==> nameOffs[i] == NameOff(ranges, i)
  {
    nameBlob, nameOffs := [], [];
    for i := 0 to |ranges|
      invariant nameBlob == Flat(NameChunks(ranges)[..i])
      invariant |nameOffs| == i && forall j :: 0 <= j < i ==> nameOffs[j] == NameOff(ranges, j)
    {
      FlatPush(NameChunks(ranges), i);
      if ranges[i].name == [] {
        nameOffs := nameOffs + [UNNAMED];
        continue;
      }
      nameOffs := nameOffs + [|nameBlob| % 65536];
      nameBlob := nameBlob + ranges[i].name + [0];
    }
    assert NameChunks(ranges)[..|ranges|] == NameChunks(ranges);
  }

  method ParseCapabilities(d: seq<byte>, at: nat, count: byte, footprint: byte) returns (r: Option<seq<ChannelMap>>)
    requires at + 5 * count as int <= |d|
    ensures var caps := CapsAt(d, at, count as int);
            if forall i :: 0 <= i < |caps| ==> ChannelOk(caps[i], footprint) then r == Some(caps) else r == None
  {
    ghost var caps := CapsAt(d, at, count as int);
    var out: seq<ChannelMap> := [];
    var i := 0;
    while i < count as int
      invariant 0 <= i <= count as int && out == caps[..i]
      invariant forall k :: 0 <= k < i ==> ChannelOk(caps[k], footprint)
    {
      var o := at + 5 * i;
      var coarse, fine := d[o + 1], d[o + 2];
      assert caps[i] == CapOf(d[o..o + 5]);
      if coarse >= footprint || (fine != NO_FINE && fine >= footprint) {
        assert !ChannelOk(caps[i], footprint);
        return None;
      }
      out := out + [ChannelMap(d[o], coarse, fine, d[o + 3], d[o + 4])];
      i := i + 1;
    }
    assert out == caps;
    r := Some(out);
  }

  method ParseRanges(d: seq<byte>, at: nat, count: nat, capCount: byte, blobAt: nat)
      returns (r: Option<seq<FunctionRange>>)
    requires at + 7 * count <= |d| && blobAt <= |d|
    ensures var ranges := RangesAt(d, at, count);
            if forall i :: 0 <= i < |ranges| ==> RangeOk(ranges[i], capCount as int, d[blobAt..])
            then r == Some(ranges) else r == None
  {
    ghost var ranges := RangesAt(d, at, count);
    var out: seq<FunctionRange> := [];
    var i := 0;
    while i < count
      invariant 0 <= i <= count && out == ranges[..i]
      invariant forall k :: 0 <= k < i ==> RangeOk(ranges[k], capCount as int, d[blobAt..])
    {
      var o := at + 7 * i;
      var range := RangeOf(d[o..o + 7]);
      assert ranges[i] == range;
      var ok := CheckRange(d, range, capCount, blobAt);
      if !ok { return None; }
      out := out + [range];
      i := i + 1;
    }
    assert out == ranges;
    r := Some(out);
  }

  method CheckRange(d: seq<byte>, r: FunctionRange, capCount: byte, blobAt: nat) returns (ok: bool)
    requires blobAt <= |d|
    ensures ok <==> RangeOk(r, capCount as int, d[blobAt..])
  {
    if r.capIndex >= capCount || r.dmxFrom > r.dmxTo { return false; }
    if r.nameOff == UNNAMED { return true; }
    var blobLen := |d| - blobAt;
    if r.nameOff >= blobLen { return false; }
    ok := HasNulWithin(d, blobAt + r.nameOff, blobLen - r.nameOff);
    TerminatedSuffix(d[blobAt..], r.nameOff);
    assert d[blobAt..][r.nameOff..] == d[blobAt + r.nameOff..blobAt + r.nameOff + (blobLen - r.nameOff)];
  }

  predicate HasMagic(d: seq<byte>): (ok: bool)
    requires |d| >= 4
    ensures ok <==> d[..4] == MAGIC
  {
    assert forall i :: 0 <= i < 4 ==> d[..4][i] == d[i];
    d[0] == MAGIC[0] && d[1] == MAGIC[1] && d[2] == MAGIC[2] && d[3] == MAGIC[3]
  }

  method Parse(d: seq<byte>) returns (r: Option<Profile>)
    ensures r.Some? <==> Accepted(d)
    ensures r.Some? ==> r.value == Decoded(d)
  {
    if |d| < 9 { return None; }
    if !HasMagic(d) { return None; }
    var version := d[4];
    if version != 1 && version != 2 { return None; }
    if d[5] != 0 { return None; }
    var footprint, capCount, nameLen := d[6], d[7], d[8];
    if capCount > MAX_CAPS { return None; }
    if version == 1 {
      var total := 9 + nameLen as int + 5 * capCount as int;
      if |d| < total { return None; }
      var caps := ParseCapabilities(d, 9 + nameLen as int, capCount, footprint);
      if caps.None? { return None; }
      r := Some(Profile(footprint, caps.value, [], []));
      assert Decoded(d).ranges == [];
      return;
    }
    r := ParseV2(d, footprint, capCount, nameLen);
  }

  method ParseV2(d: seq<byte>, footprint: byte, capCount: byte, nameLen: byte) returns (r: Option<Profile>)
    requires |d| >= 9 && d[..4] == MAGIC && d[4] == 2 && d[5] == 0 && capCount <= MAX_CAPS
    requires footprint == d[6] && capCount == d[7] && nameLen == d[8]
    ensures r.Some? <==> Accepted(d)
    ensures r.Some? ==> r.value == Decoded(d)
  {
    if |d| < 11 { return None; }
    var rangeCount := U16At(d, 9);
    if rangeCount > MAX_RANGES { return None; }
    var capTable := 11 + nameLen as int;
    var rangeTable := capTable + 5 * capCount as int;
    var blobAt := rangeTable + 7 * rangeCount as int;
    if |d| < blobAt { return None; }
    if |d| - blobAt > MAX_RANGE_NAME_BLOB { return None; }
    assert HeaderOk(d) && SizesOk(d);
    ghost var p := Decoded(d);
    assert p.channels == CapsAt(d, capTable, capCount as int) && p.footprint == footprint;
    assert p.ranges == RangesAt(d, rangeTable, rangeCount) && p.nameBlob == d[blobAt..];
    var caps := ParseCapabilities(d, capTable, capCount, footprint);
    if caps.None? { return None; }
    var ranges := ParseRanges(d, rangeTable, rangeCount, capCount, blobAt);
    if ranges.None? { return None; }
    r := Some(Profile(footprint, caps.value, ranges.value, d[blobAt..]));
  }
}
