/** loadShow of show_bundle.cpp: a reader that moves over the bundle and the loops
    that fill the loaded show, against the format of ShowFormat. */
module ShowLoader {
  import opened Bytes
  import opened Reading
  import opened Destinations
  import opened Wiring
  import opened ShowFormat
  import FixtureProfile
  import Mdef
  import ControllerFormat
  import ControllerCodec
  import ProfileFormat

  ghost function ProfileParsed(blob: seq<byte>): Option<FixtureProfile.Profile> {
    if ProfileFormat.Accepted(blob) then Some(ProfileFormat.Decoded(blob)) else None
  }

  ghost function ControllerParsed(blob: seq<byte>): Option<Mdef.Controller> {
    if ControllerFormat.Accepted(blob) then Some(ControllerFormat.Decoded(blob)) else None
  }

  /** The two parsers a bundle's embedded blobs go through. */
  ghost function Codecs(): Parsers {
    Parsers(blob => ProfileParsed(blob), blob => ControllerParsed(blob))
  }

  /** A call that left the reader at `after` and returned `r` did what `spec` says. */
  ghost predicate Did<T>(spec: Read<T>, r: Option<T>, after: nat) {
    match spec
    case Fail => r.None?
    case Got(v, next) => r == Some(v) && after == next
  }

  class BundleReader {
    const data: seq<byte>
    var pos: nat

    constructor (data: seq<byte>)
      ensures this.data == data && pos == 0
    {
      this.data, pos := data, 0;
    }

    method ReadU8() returns (r: Option<byte>)
      modifies this
      ensures Did(U8(data, old(pos)), r, pos)
    {
      if pos + 1 > |data| { return None; }
      r := Some(data[pos]);
      pos := pos + 1;
    }

    method ReadU16() returns (r: Option<u16>)
      modifies this
      ensures Did(U16(data, old(pos)), r, pos)
    {
      if pos + 2 > |data| { return None; }
      r := Some(U16At(data, pos));
      pos := pos + 2;
    }

    method ReadU32() returns (r: Option<u32>)
      modifies this
      ensures Did(U32(data, old(pos)), r, pos)
    {
      if pos + 4 > |data| { return None; }
      r := Some(U32At(data, pos));
      pos := pos + 4;
    }

    method ReadBytes(count: nat) returns (r: Option<seq<byte>>)
      modifies this
      ensures Did(Text(data, old(pos), count), r, pos)
    {
      if pos + count > |data| { return None; }
      r := Some(data[pos..pos + count]);
      pos := pos + count;
    }

    method ReadBlob() returns (r: Option<seq<byte>>)
      modifies this
      ensures Did(Blob(data, old(pos)), r, pos)
    {
      var len := ReadU16();
      if len.None? { return None; }
      r := ReadBytes(len.value);
    }

    method ReadShortText() returns (r: Option<seq<byte>>)
      modifies this
      ensures Did(ShortText(data, old(pos)), r, pos)
    {
      var len := ReadU8();
      if len.None? { return None; }
      r := ReadBytes(len.value as int);
    }
  }

  method ReadUniverse(reader: BundleReader, version: byte, i: nat) returns (r: Option<Universe>)
    modifies reader
    ensures Did(UniverseAt(version, reader.data, old(reader.pos), i), r, reader.pos)
  {
    var dest := ArtNetDest(0, i % 0x1_0000);
    var transport := reader.ReadU8();
    if transport.None? || transport.value > 3 { return None; }
    if version >= 4 {
      var ip := reader.ReadU32();
      if ip.None? { return None; }
      var wire := reader.ReadU16();
      if wire.None? { return None; }
      dest := ArtNetDest(ip.value, wire.value);
    }
    r := Some(Universe(transport.value, dest));
  }

  method ReadUniverses(reader: BundleReader, version: byte, count: nat) returns (r: Option<seq<Universe>>)
    modifies reader
    ensures Did(Many(Universes(version), reader.data, old(reader.pos), count), r, reader.pos)
  {
    ghost var d, start := reader.data, reader.pos;
    var universes: seq<Universe> := [];
    for i := 0 to count
      invariant Many(Universes(version), d, start, i) == Got(universes, reader.pos)
    {
      var u := ReadUniverse(reader, version, i);
      if u.None? {
        ManyStop(Universes(version), d, start, i + 1, count);
        return None;
      }
      universes := universes + [u.value];
    }
    r := Some(universes);
  }

  method ReadProfiles(reader: BundleReader, count: nat) returns (r: Option<seq<FixtureProfile.Profile>>)
    modifies reader
    ensures Did(Many(Profiles(Codecs()), reader.data, old(reader.pos), count), r, reader.pos)
  {
    ghost var d, start := reader.data, reader.pos;
    var profiles: seq<FixtureProfile.Profile> := [];
    for i := 0 to count
      invariant Many(Profiles(Codecs()), d, start, i) == Got(profiles, reader.pos)
    {
      var p := ReadProfile(reader);
      if p.None? {
        ManyStop(Profiles(Codecs()), d, start, i + 1, count);
        return None;
      }
      profiles := profiles + [p.value];
    }
    r := Some(profiles);
  }

  method ReadProfile(reader: BundleReader) returns (r: Option<FixtureProfile.Profile>)
    modifies reader
    ensures Did(ProfileAt(Codecs(), reader.data, old(reader.pos)), r, reader.pos)
  {
    var blob := reader.ReadBlob();
    if blob.None? { return None; }
    r := ProfileFormat.Parse(blob.value);
    assert Codecs().profile(blob.value) == ProfileParsed(blob.value);
  }

  /** The ten floats of a fixture record. */
  method ReadWords(reader: BundleReader) returns (r: Option<seq<u32>>)
    modifies reader
    ensures var d, start := reader.data, old(reader.pos);
            if start + 40 <= |d| then r == Some(WordsAt(d, start)) && reader.pos == start + 40 else r.None?
  {
    ghost var start := reader.pos;
    var words: seq<u32> := [];
    for k := 0 to 10
      invariant |words| == k && reader.pos == start + 4 * k
      invariant k == 0 || start + 4 * k <= |reader.data|
      invariant forall j :: 0 <= j < k ==> words[j] == U32At(reader.data, start + 4 * j)
    {
      var w := reader.ReadU32();
      if w.None? { return None; }
      words := words + [w.value];
    }
    assert words == WordsAt(reader.data, start);
    r := Some(words);
  }

  /** The head fields, which follow the first six bytes of a fixture record. */
  method ReadHead(reader: BundleReader) returns (r: Option<Head>)
    requires reader.pos >= 6
    modifies reader
    ensures var d, start := reader.data, old(reader.pos);
            if start + 42 <= |d| then r == Some(HeadAt(d, start - 6)) && reader.pos == start + 42 else r.None?
  {
    var words := ReadWords(reader);
    if words.None? { return None; }
    var invertPan := reader.ReadU8();
    if invertPan.None? { return None; }
    var invertTilt := reader.ReadU8();
    if invertTilt.None? { return None; }
    var w := words.value;
    r := Some(Head(Vec3(w[0], w[1], w[2]), Vec3(w[3], w[4], w[5]), w[6], w[7], w[8], w[9],
                   invertPan.value != 0, invertTilt.value != 0));
  }

  method ReadFixture(reader: BundleReader, profiles: seq<FixtureProfile.Profile>) returns (r: Option<PatchEntry>)
    modifies reader
    ensures Did(FixtureAt(profiles, reader.data, old(reader.pos)), r, reader.pos)
  {
    if reader.pos + 46 > |reader.data| { return None; }
    var profileIndex := reader.ReadU16();
    if profileIndex.None? || profileIndex.value >= |profiles| { return None; }
    var universe := reader.ReadU8();
    if universe.None? || universe.value >= 8 { return None; }
    var base := reader.ReadU16();
    if base.None? { return None; }
    var isHead := reader.ReadU8();
    if isHead.None? { return None; }
    var fields := ReadHead(reader);
    if fields.None? { return None; }
    r := Some(PatchEntry(profiles[profileIndex.value], universe.value, base.value,
                         if isHead.value != 0 then fields else None));
  }

  method ReadFixtures(reader: BundleReader, profiles: seq<FixtureProfile.Profile>, count: nat)
      returns (r: Option<seq<PatchEntry>>)
    modifies reader
    ensures Did(Many(Fixtures(profiles), reader.data, old(reader.pos), count), r, reader.pos)
  {
    ghost var d, start := reader.data, reader.pos;
    var fixtures: seq<PatchEntry> := [];
    for i := 0 to count
      invariant Many(Fixtures(profiles), d, start, i) == Got(fixtures, reader.pos)
    {
      var f := ReadFixture(reader, profiles);
      if f.None? {
        ManyStop(Fixtures(profiles), d, start, i + 1, count);
        return None;
      }
      fixtures := fixtures + [f.value];
    }
    r := Some(fixtures);
  }

  method ReadMatrix(reader: BundleReader) returns (r: Option<MatrixMap>)
    modifies reader
    ensures Did(MatrixAt(reader.data, old(reader.pos)), r, reader.pos)
  {
    if reader.pos + 8 > |reader.data| { return None; }
    var width := reader.ReadU16();
    if width.None? { return None; }
    var height := reader.ReadU16();
    if height.None? { return None; }
    var serpentine := reader.ReadU8();
    if serpentine.None? { return None; }
    var vertical := reader.ReadU8();
    if vertical.None? { return None; }
    var order := reader.ReadU8();
    if order.None? || order.value > 5 { return None; }
    var startUniverse := reader.ReadU8();
    if startUniverse.None? || startUniverse.value >= 8 { return None; }
    var startChannel := reader.ReadU16();
    if startChannel.None? { return None; }
    r := Some(MatrixMap(width.value, height.value, serpentine.value != 0, vertical.value != 0, OrderOf(order.value),
                        startUniverse.value, startChannel.value));
  }

  method ReadMatrices(reader: BundleReader, count: nat) returns (r: Option<seq<MatrixMap>>)
    modifies reader
    ensures Did(Many(Matrices(), reader.data, old(reader.pos), count), r, reader.pos)
  {
    ghost var d, start := reader.data, reader.pos;
    var matrices: seq<MatrixMap> := [];
    for i := 0 to count
      invariant Many(Matrices(), d, start, i) == Got(matrices, reader.pos)
    {
      var m := ReadMatrix(reader);
      if m.None? {
        ManyStop(Matrices(), d, start, i + 1, count);
        return None;
      }
      matrices := matrices + [m.value];
    }
    r := Some(matrices);
  }

  method ReadController(reader: BundleReader) returns (r: Option<Mdef.Controller>)
    modifies reader
    ensures Did(ControllerAt(Codecs(), reader.data, old(reader.pos)), r, reader.pos)
  {
    var blob := reader.ReadBlob();
    if blob.None? { return None; }
    r := ControllerCodec.Parse(blob.value);
    assert Codecs().controller(blob.value) == ControllerParsed(blob.value);
  }

  method ReadControllers(reader: BundleReader, count: nat) returns (r: Option<seq<Mdef.Controller>>)
    modifies reader
    ensures Did(Many(Controllers(Codecs()), reader.data, old(reader.pos), count), r, reader.pos)
  {
    ghost var d, start := reader.data, reader.pos;
    var controllers: seq<Mdef.Controller> := [];
    for i := 0 to count
      invariant Many(Controllers(Codecs()), d, start, i) == Got(controllers, reader.pos)
    {
      var c := ReadController(reader);
      if c.None? {
        ManyStop(Controllers(Codecs()), d, start, i + 1, count);
        return None;
      }
      controllers := controllers + [c.value];
    }
    r := Some(controllers);
  }

  method ReadWled(reader: BundleReader) returns (r: Option<WledTarget>)
    modifies reader
    ensures Did(WledAt(reader.data, old(reader.pos)), r, reader.pos)
  {
    var name := reader.ReadShortText();
    if name.None? { return None; }
    var ip := reader.ReadShortText();
    if ip.None? { return None; }
    var port := reader.ReadU16();
    if port.None? { return None; }
    var syncGroup := reader.ReadU8();
    if syncGroup.None? { return None; }
    r := Some(WledTarget(name.value, ip.value, port.value, syncGroup.value));
  }

  method ReadWledTargets(reader: BundleReader, count: nat) returns (r: Option<seq<WledTarget>>)
    modifies reader
    ensures Did(Many(WledTargets(), reader.data, old(reader.pos), count), r, reader.pos)
  {
    ghost var d, start := reader.data, reader.pos;
    var targets: seq<WledTarget> := [];
    for i := 0 to count
      invariant Many(WledTargets(), d, start, i) == Got(targets, reader.pos)
    {
      var t := ReadWled(reader);
      if t.None? {
        ManyStop(WledTargets(), d, start, i + 1, count);
        return None;
      }
      targets := targets + [t.value];
    }
    r := Some(targets);
  }

  /** The header: magic, version, then the counts the version has. */
  method ReadHeader(reader: BundleReader) returns (r: Option<Counts>)
    requires reader.pos == 0
    modifies reader
    ensures if HeaderOk(reader.data) then r == Some(CountsIn(reader.data)) && reader.pos == HeaderSize(reader.data[4])
            else r.None?
  {
    if 6 > |reader.data| { return None; }
    var magic := reader.ReadBytes(4);
    assert reader.data[0..4] == reader.data[..4];
    if magic.None? || magic.value != MAGIC { return None; }
    var version := reader.ReadU8();
    if version.None? || version.value < 1 || version.value > 4 { return None; }
    var universes := reader.ReadU8();
    if universes.None? || universes.value > 8 { return None; }
    r := ReadCounts(reader, version.value, universes.value);
  }

  method ReadCounts(reader: BundleReader, version: byte, universes: byte) returns (r: Option<Counts>)
    requires reader.pos == 6 <= |reader.data| && 1 <= version <= 4
    modifies reader
    ensures var d := reader.data;
            if |d| >= HeaderSize(version) then
              r == Some(Counts(version, universes, U16At(d, 6), U16At(d, 8), U16At(d, 10),
                               if version >= 2 then U16At(d, 12) else 0, if version >= 3 then U16At(d, 14) else 0)) &&
              reader.pos == HeaderSize(version)
            else r.None?
  {
    var profiles := reader.ReadU16();
    if profiles.None? { return None; }
    var fixtures := reader.ReadU16();
    if fixtures.None? { return None; }
    var matrices := reader.ReadU16();
    if matrices.None? { return None; }
    var controllers, wled := Some(0 as u16), Some(0 as u16);
    if version >= 2 { controllers := reader.ReadU16(); }
    if controllers.None? { return None; }
    if version >= 3 { wled := reader.ReadU16(); }
    if wled.None? { return None; }
    r := Some(Counts(version, universes, profiles.value, fixtures.value, matrices.value, controllers.value, wled.value));
  }

  method ReadFront(reader: BundleReader, c: Counts) returns (r: Option<(seq<Universe>, seq<PatchEntry>)>)
    requires reader.pos == HeaderSize(c.version)
    modifies reader
    ensures Did(Front(Codecs(), c, reader.data), r, reader.pos)
  {
    var universes := ReadUniverses(reader, c.version, c.universes as int);
    if universes.None? { return None; }
    var profiles := ReadProfiles(reader, c.profiles);
    if profiles.None? { return None; }
    var fixtures := ReadFixtures(reader, profiles.value, c.fixtures);
    if fixtures.None? { return None; }
    r := Some((universes.value, fixtures.value));
  }

  method ReadBack(reader: BundleReader, c: Counts)
      returns (r: Option<(seq<MatrixMap>, seq<Mdef.Controller>, seq<WledTarget>)>)
    modifies reader
    ensures Did(Back(Codecs(), c, reader.data, old(reader.pos)), r, reader.pos)
  {
    var matrices := ReadMatrices(reader, c.matrices);
    if matrices.None? { return None; }
    var controllers := ReadControllers(reader, c.controllers);
    if controllers.None? { return None; }
    var targets := ReadWledTargets(reader, c.wled);
    if targets.None? { return None; }
    r := Some((matrices.value, controllers.value, targets.value));
  }

  method LoadShow(data: seq<byte>) returns (r: Option<LoadedShow>)
    ensures r.Some? <==> Load(Codecs(), data).Got?
    ensures r.Some? ==> r.value == Load(Codecs(), data).value
  {
    var reader := new BundleReader(data);
    var c := ReadHeader(reader);
    if c.None? { return None; }
    var front := ReadFront(reader, c.value);
    if front.None? { return None; }
    var back := ReadBack(reader, c.value);
    if back.None? { return None; }
    r := Some(LoadedShow(front.value.0, front.value.1, back.value.0, back.value.1, back.value.2));
  }
}
