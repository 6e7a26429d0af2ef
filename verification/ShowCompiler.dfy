/** The part of compileShow (provision.cpp) that builds the profile table and writes
    the bundle, and what the whole pipeline guarantees. */
module ShowCompiler {
  import opened Bytes
  import opened Reading
  import opened Wiring
  import opened ShowFormat
  import opened ShowBundle
  import ShowRoundTrip
  import ShowLoader
  import ControllerFormat
  import ProfileFormat

  // ---- profile table -----------------------------------------------------

  lemma PositionIs(files: seq<Name>, f: Name, k: nat)
    requires k < |files| && files[k] == f && forall j :: 0 <= j < k ==> files[j] != f
    ensures Position(files, f) == k
  {
    var i := Position(files, f);
    assert !(i < k) && !(k < i);
  }

  lemma PositionKept(files: seq<Name>, f: Name, g: Name)
    requires g in files
    ensures Position(files + [f], g) == Position(files, g)
  {
    PositionIs(files + [f], g, Position(files, g));
  }

  /** One blob per definition file, in order of first use, and where each went. */
  ghost predicate ProfilesBuilt(p: KnownPatch, n: nat, blobs: seq<seq<byte>>, index: map<Name, nat>)
    requires n <= |p.fixtures|
  {
    var files := Files(p.fixtures[..n]);
    |blobs| == |files| &&
    (forall f :: f in files ==> f in p.defs) &&
    (forall k :: 0 <= k < |files| ==> files[k] in p.defs && blobs[k] == p.defs[files[k]].profileBlob) &&
    (forall f :: f in index <==> f in files) &&
    (forall f :: f in files ==> index[f] == Position(files, f))
  }

  method BuildProfiles(p: KnownPatch) returns (blobs: seq<seq<byte>>, index: map<Name, nat>)
    ensures |blobs| == |Files(p.fixtures)| && forall k :: 0 <= k < |blobs| ==> blobs[k] == ProfileBlob(p, k)
    ensures forall i :: 0 <= i < |p.fixtures| ==>
              p.fixtures[i].defFile in index && index[p.fixtures[i].defFile] == ProfileIndex(p, i)
  {
    blobs, index := [], map[];
    for i := 0 to |p.fixtures|
      invariant ProfilesBuilt(p, i, blobs, index)
    {
      var f := p.fixtures[i].defFile;
      if f !in index {
        ProfileAdded(p, i, blobs, index);
        index := index[f := |blobs|];
        blobs := blobs + [p.defs[f].profileBlob];
      } else {
        ProfileShared(p, i, blobs, index);
      }
    }
    AllBuilt(p, blobs, index);
  }

  lemma ProfileShared(p: KnownPatch, i: nat, blobs: seq<seq<byte>>, index: map<Name, nat>)
    requires i < |p.fixtures| && ProfilesBuilt(p, i, blobs, index) && p.fixtures[i].defFile in index
    ensures ProfilesBuilt(p, i + 1, blobs, index)
  {
    assert p.fixtures[..i + 1][..i] == p.fixtures[..i];
  }

  lemma AllBuilt(p: KnownPatch, blobs: seq<seq<byte>>, index: map<Name, nat>)
    requires ProfilesBuilt(p, |p.fixtures|, blobs, index)
    ensures |blobs| == |Files(p.fixtures)| && forall k :: 0 <= k < |blobs| ==> blobs[k] == ProfileBlob(p, k)
    ensures forall i :: 0 <= i < |p.fixtures| ==>
              p.fixtures[i].defFile in index && index[p.fixtures[i].defFile] == ProfileIndex(p, i)
  {
    assert p.fixtures[..|p.fixtures|] == p.fixtures;
  }

  lemma ProfileAdded(p: KnownPatch, i: nat, blobs: seq<seq<byte>>, index: map<Name, nat>)
    requires i < |p.fixtures| && ProfilesBuilt(p, i, blobs, index) && p.fixtures[i].defFile !in index
    ensures var f := p.fixtures[i].defFile;
            ProfilesBuilt(p, i + 1, blobs + [p.defs[f].profileBlob], index[f := |blobs|])
  {
    var f, files := p.fixtures[i].defFile, Files(p.fixtures[..i]);
    assert p.fixtures[..i + 1][..i] == p.fixtures[..i];
    assert Files(p.fixtures[..i + 1]) == files + [f];
    forall g | g in files ensures Position(files + [f], g) == Position(files, g) {
      PositionKept(files, f, g);
    }
    PositionIs(files + [f], f, |files|);
  }

  // ---- writer ------------------------------------------------------------

  method WriteHeader(p: KnownPatch, version: byte, profileCount: nat) returns (out: seq<byte>)
    requires version == Version(p) && profileCount == |Files(p.fixtures)|
    ensures out == Header(p)
  {
    out := MAGIC;
    var tail := [version, (p.maxUniverse + 1) % 256];
    tail := tail + Le16(profileCount % 0x1_0000) + Le16(|p.fixtures| % 0x1_0000) + Le16(|p.matrices| % 0x1_0000);
    if version >= 2 { tail := tail + Le16(|p.controllerBlobs| % 0x1_0000); }
    if version >= 3 { tail := tail + Le16(|p.wledTargets| % 0x1_0000); }
    out := out + tail;
  }

  method WriteUniverses(p: KnownPatch, version: byte) returns (out: seq<byte>)
    requires version == Version(p)
    ensures out == Flat(UniverseRows(p))
  {
    var count: nat := (p.maxUniverse + 1) % 256;
    out := [];
    for i := 0 to count
      invariant out == Flat(UniverseRows(p)[..i])
    {
      FlatPush(UniverseRows(p), i);
      var entry := NO_ENTRY;
      if i as byte in p.universes { entry := p.universes[i as byte]; }
      var row := [entry.transport];
      if version >= 4 { row := row + (Le32(entry.destIp) + Le16(entry.wireUniverse)); }
      out := out + row;
    }
    assert UniverseRows(p)[..count] == UniverseRows(p);
  }

  method WriteBlobs(blobs: seq<seq<byte>>, ghost rows: seq<seq<byte>>) returns (out: seq<byte>)
    requires |rows| == |blobs| && forall i :: 0 <= i < |blobs| ==> rows[i] == BlobRow(blobs[i])
    ensures out == Flat(rows)
  {
    out := [];
    for i := 0 to |blobs|
      invariant out == Flat(rows[..i])
    {
      FlatPush(rows, i);
      out := out + (Le16(|blobs[i]| % 0x1_0000) + blobs[i]);
    }
    assert rows[..|blobs|] == rows;
  }

  method WriteWords(words: seq<u32>) returns (out: seq<byte>)
    ensures out == Flat(WordRows(words))
  {
    out := [];
    for k := 0 to |words|
      invariant out == Flat(WordRows(words)[..k])
    {
      FlatPush(WordRows(words), k);
      out := out + Le32(words[k]);
    }
    assert WordRows(words)[..|words|] == WordRows(words);
  }

  method WriteFixture(profileIndex: u16, fi: FixtureInstance, def: FixtureDef) returns (row: seq<byte>)
    ensures row == FixtureRow(profileIndex, fi, def)
  {
    row := Le16(profileIndex);
    row := row + [fi.universe];
    row := row + Le16(fi.base);
    row := row + [if def.isHead then 1 else 0];
    var words := WriteWords([fi.position.x, fi.position.y, fi.position.z, fi.rotation.x, fi.rotation.y, fi.rotation.z,
                             def.panRangeDeg, def.tiltRangeDeg, fi.panCenterNorm, fi.tiltCenterNorm]);
    row := row + words;
    row := row + [if fi.invertPan then 1 else 0, if fi.invertTilt then 1 else 0];
  }

  method WriteFixtures(p: KnownPatch, index: map<Name, nat>) returns (out: seq<byte>)
    requires forall i :: 0 <= i < |p.fixtures| ==>
               p.fixtures[i].defFile in index && index[p.fixtures[i].defFile] == ProfileIndex(p, i)
    ensures out == Flat(FixtureRows(p))
  {
    out := [];
    ghost var rows := FixtureRows(p);
    for i := 0 to |p.fixtures|
      invariant out == Flat(rows[..i])
    {
      FlatPush(rows, i);
      var fi := p.fixtures[i];
      var row := WriteFixture(index[fi.defFile] % 0x1_0000, fi, p.defs[fi.defFile]);
      out := out + row;
    }
    assert rows[..|p.fixtures|] == rows;
  }

  method WriteMatrices(p: KnownPatch) returns (out: seq<byte>)
    ensures out == Flat(MatrixRows(p))
  {
    out := [];
    ghost var rows := MatrixRows(p);
    for i := 0 to |p.matrices|
      invariant out == Flat(rows[..i])
    {
      FlatPush(rows, i);
      var m := p.matrices[i];
      var row := Le16(m.width) + Le16(m.height);
      row := row + [if m.serpentine then 1 else 0, if m.vertical then 1 else 0, OrderCode(m.order), m.startUniverse];
      row := row + Le16(m.startChannel);
      assert row == MatrixRow(m);
      out := out + row;
    }
    assert rows[..|p.matrices|] == rows;
  }

  method WriteWled(p: KnownPatch) returns (out: seq<byte>)
    ensures out == Flat(WledRows(p))
  {
    out := [];
    ghost var rows := WledRows(p);
    for i := 0 to |p.wledTargets|
      invariant out == Flat(rows[..i])
    {
      FlatPush(rows, i);
      var t := p.wledTargets[i];
      var name, ip := [|t.name| % 256] + t.name, [|t.ip| % 256] + t.ip;
      out := out + (name + (ip + (Le16(t.port) + [t.syncGroup])));
    }
    assert rows[..|p.wledTargets|] == rows;
  }

  lemma SevenParts(parts: seq<seq<byte>>)
    requires |parts| == 7
    ensures Flat(parts) == parts[0] + parts[1] + parts[2] + parts[3] + parts[4] + parts[5] + parts[6]
  {
    assert [] + parts[0] == parts[0] && parts[..7] == parts;
    FlatPush(parts, 0);
    FlatPush(parts, 1);
    FlatPush(parts, 2);
    FlatPush(parts, 3);
    FlatPush(parts, 4);
    FlatPush(parts, 5);
    FlatPush(parts, 6);
  }

  /** The bundle of a patch. */
  method WriteBundle(p: KnownPatch) returns (bundle: seq<byte>)
    ensures bundle == Encoded(p)
  {
    SevenParts(Parts(p));
    var blobs, index := BuildProfiles(p);
    var version: byte := 1;
    if p.anyExplicitArtnetRoute {
      version := 4;
    } else if p.wledTargets != [] {
      version := 3;
    } else if p.controllerBlobs != [] {
      version := 2;
    }
    bundle := WriteHeader(p, version, |blobs|);
    var universes := WriteUniverses(p, version);
    bundle := bundle + universes;
    var profiles := WriteBlobs(blobs, ProfileRows(p));
    bundle := bundle + profiles;
    var fixtures := WriteFixtures(p, index);
    bundle := bundle + fixtures;
    var matrices := WriteMatrices(p);
    bundle := bundle + matrices;
    var controllers := WriteBlobs(p.controllerBlobs, ControllerRows(p));
    bundle := bundle + controllers;
    var wled := WriteWled(p);
    bundle := bundle + wled;
  }

  // ---- the embedded formats ----------------------------------------------

  /** Each definition's blob is what the profile encoder makes of it. */
  predicate BuiltFrom(p: Patch, builders: map<Name, ProfileFormat.Builder>) {
    forall f <- p.defs :: f in builders && p.defs[f].profileBlob == ProfileFormat.Encoded(builders[f])
  }

  predicate BuildersOk(builders: map<Name, ProfileFormat.Builder>) {
    forall f <- builders :: ProfileFormat.Representable(builders[f]) && ProfileFormat.WithinLimits(builders[f])
  }

  /** Each controller blob is what the controller encoder makes of an allowed builder. */
  predicate ControllersBuilt(p: Patch, controllers: seq<ControllerFormat.Builder>) {
    |controllers| == |p.controllerBlobs| &&
    forall i :: 0 <= i < |controllers| ==>
      ControllerFormat.Encodable(controllers[i]) && ControllerFormat.ValuesOk(controllers[i]) &&
      p.controllerBlobs[i] == ControllerFormat.Encoded(controllers[i])
  }

  lemma ProfilesFit(p: FittingPatch, builders: map<Name, ProfileFormat.Builder>)
    requires BuiltFrom(p, builders) && BuildersOk(builders)
    ensures ProfilesParse(ShowLoader.Codecs(), p)
  {
    forall k | 0 <= k < |Files(p.fixtures)| ensures ShowLoader.Codecs().profile(ProfileBlob(p, k)).Some? {
      var f := Files(p.fixtures)[k];
      assert f in Files(p.fixtures);
      ProfileFormat.RoundTrip(builders[f]);
      assert ShowLoader.Codecs().profile(ProfileBlob(p, k)) == ShowLoader.ProfileParsed(ProfileBlob(p, k));
    }
  }

  lemma ControllersFit(p: Patch, controllers: seq<ControllerFormat.Builder>)
    requires ControllersBuilt(p, controllers)
    ensures ControllersParse(ShowLoader.Codecs(), p)
  {
    forall i | 0 <= i < |p.controllerBlobs| ensures ShowLoader.Codecs().controller(p.controllerBlobs[i]).Some? {
      ControllerFormat.RoundTrip(controllers[i]);
      assert ShowLoader.Codecs().controller(p.controllerBlobs[i]) == ShowLoader.ControllerParsed(p.controllerBlobs[i]);
    }
  }

  lemma OwnProfiles(p: FittingPatch, builders: map<Name, ProfileFormat.Builder>)
    requires BuiltFrom(p, builders) && BuildersOk(builders)
    requires ProfilesParse(ShowLoader.Codecs(), p)
    ensures forall i :: 0 <= i < |p.fixtures| ==>
              DescribedFixtures(ShowLoader.Codecs(), p)[i].profile
              == ProfileFormat.Described(builders[p.fixtures[i].defFile])
  {
    forall i | 0 <= i < |p.fixtures|
      ensures DescribedFixtures(ShowLoader.Codecs(), p)[i].profile
              == ProfileFormat.Described(builders[p.fixtures[i].defFile])
    {
      ProfileFormat.RoundTrip(builders[p.fixtures[i].defFile]);
      ProfileOfFixture(ShowLoader.Codecs(), p, i);
      var blob := OwnProfile(p, i);
      assert ShowLoader.Codecs().profile(blob) == ShowLoader.ProfileParsed(blob);
    }
  }

  lemma OwnControllers(p: FittingPatch, controllers: seq<ControllerFormat.Builder>)
    requires ControllersBuilt(p, controllers) && ControllersParse(ShowLoader.Codecs(), p)
    ensures forall i :: 0 <= i < |controllers| ==>
              DescribedControllers(ShowLoader.Codecs(), p)[i] == ControllerFormat.Described(controllers[i])
  {
    forall i | 0 <= i < |controllers|
      ensures DescribedControllers(ShowLoader.Codecs(), p)[i] == ControllerFormat.Described(controllers[i])
    {
      ControllerFormat.RoundTrip(controllers[i]);
      assert ShowLoader.Codecs().controller(p.controllerBlobs[i]) == ShowLoader.ControllerParsed(p.controllerBlobs[i]);
    }
  }

  /** The whole pipeline: definitions within their own limits always give a bundle
      that loads, with every fixture carrying precisely the profile its definition
      file describes, however many fixtures share that file's one copy, and every
      controller as declared. */
  lemma CompiledShowLoads(p: FittingPatch, builders: map<Name, ProfileFormat.Builder>,
                          controllers: seq<ControllerFormat.Builder>)
    requires BuiltFrom(p, builders) && BuildersOk(builders) && ControllersBuilt(p, controllers)
    ensures Load(ShowLoader.Codecs(), Encoded(p)).Got?
    ensures var show := Load(ShowLoader.Codecs(), Encoded(p)).value;
            |show.fixtures| == |p.fixtures| && |show.controllers| == |controllers| &&
            (forall i :: 0 <= i < |p.fixtures| ==>
              show.fixtures[i].profile == ProfileFormat.Described(builders[p.fixtures[i].defFile])) &&
            (forall i :: 0 <= i < |controllers| ==>
              show.controllers[i] == ControllerFormat.Described(controllers[i])) &&
            show.matrices == p.matrices && show.wledTargets == p.wledTargets
  {
    ProfilesFit(p, builders);
    ControllersFit(p, controllers);
    ShowRoundTrip.RoundTrip(ShowLoader.Codecs(), p);
    OwnProfiles(p, builders);
    OwnControllers(p, controllers);
  }
}
