/** The bundle compileShow of provision.cpp writes from its parsed tables, and the
    show loadShow reads back from it. */
module ShowBundle {
  import opened Bytes
  import opened Reading
  import opened Destinations
  import opened Wiring
  import opened ShowFormat
  import FixtureProfile
  import Mdef

  type Name = seq<byte>

  datatype UniverseEntry = UniverseEntry(transport: byte, destIp: u32, wireUniverse: u16, hasExplicitRoute: bool)

  /** Entry of a universe no UNIVERSE line mentions. */
  const NO_ENTRY: UniverseEntry := UniverseEntry(UNUSED, 0, 0, false)

  /** A parsed definition file; `profileBlob` is its encoded profile. */
  datatype FixtureDef = FixtureDef(profileBlob: seq<byte>, isHead: bool, panRangeDeg: u32, tiltRangeDeg: u32)

  datatype FixtureInstance = FixtureInstance(
    defFile: Name, universe: byte, base: u16, position: Vec3, rotation: Vec3,
    panCenterNorm: u32, tiltCenterNorm: u32, invertPan: bool, invertTilt: bool)

  /** The tables left by parsing a .show and the definition files it names. */
  datatype Patch = Patch(
    universes: map<byte, UniverseEntry>,
    maxUniverse: byte,
    anyExplicitArtnetRoute: bool,
    defs: map<Name, FixtureDef>,
    fixtures: seq<FixtureInstance>,
    matrices: seq<MatrixMap>,
    controllerBlobs: seq<seq<byte>>,
    wledTargets: seq<WledTarget>)

  // ---- profiles, once per definition file --------------------------------

  /** The definition files in order of first use. */
  function Files(fixtures: seq<FixtureInstance>): (files: seq<Name>)
    ensures forall f :: f in files <==> exists i :: 0 <= i < |fixtures| && fixtures[i].defFile == f
    ensures forall i, j :: 0 <= i < j < |files| ==> files[i] != files[j]
    ensures |files| <= |fixtures|
  {
    if fixtures == [] then [] else
      var front, last := Files(fixtures[..|fixtures| - 1]), fixtures[|fixtures| - 1];
      if last.defFile in front then front else front + [last.defFile]
  }

  function Position(files: seq<Name>, f: Name): (i: nat)
    requires f in files
    ensures i < |files| && files[i] == f
    ensures forall j :: 0 <= j < i ==> files[j] != f
  {
    if files[0] == f then 0 else 1 + Position(files[1..], f)
  }

  // ---- what is written ---------------------------------------------------

  function Version(p: Patch): byte {
    if p.anyExplicitArtnetRoute then 4
    else if p.wledTargets != [] then 3
    else if p.controllerBlobs != [] then 2
    else 1
  }

  function UniversesUsed(p: Patch): byte {
    (p.maxUniverse + 1) % 256
  }

  function Entry(p: Patch, i: nat): UniverseEntry {
    if i < 256 && i as byte in p.universes then p.universes[i as byte] else NO_ENTRY
  }

  function Header(p: Patch): seq<byte> {
    MAGIC + HeaderTail(p)
  }

  function HeaderTail(p: Patch): seq<byte> {
    [Version(p), UniversesUsed(p)]
    + Le16(|Files(p.fixtures)| % 0x1_0000) + Le16(|p.fixtures| % 0x1_0000) + Le16(|p.matrices| % 0x1_0000)
    + (if Version(p) >= 2 then Le16(|p.controllerBlobs| % 0x1_0000) else [])
    + (if Version(p) >= 3 then Le16(|p.wledTargets| % 0x1_0000) else [])
  }

  function UniverseRow(version: byte, e: UniverseEntry): seq<byte> {
    [e.transport] + if version >= 4 then Le32(e.destIp) + Le16(e.wireUniverse) else []
  }

  function BlobRow(blob: seq<byte>): seq<byte> {
    Le16(|blob| % 0x1_0000) + blob
  }

  function Numbers(fi: FixtureInstance, def: FixtureDef): (w: seq<u32>)
    ensures |w| == 10
  {
    [fi.position.x, fi.position.y, fi.position.z, fi.rotation.x, fi.rotation.y, fi.rotation.z,
     def.panRangeDeg, def.tiltRangeDeg, fi.panCenterNorm, fi.tiltCenterNorm]
  }

  function WordRows(w: seq<u32>): (rows: seq<seq<byte>>)
    ensures |rows| == |w| && AllWide(rows, 4)
  {
    seq(|w|, k requires 0 <= k < |w| => Le32(w[k]))
  }

  function Flag(b: bool): byte {
    if b then 1 else 0
  }

  function FixtureFront(profileIndex: u16, fi: FixtureInstance, def: FixtureDef): (r: seq<byte>)
    ensures |r| == 6
  {
    Le16(profileIndex) + [fi.universe] + Le16(fi.base) + [Flag(def.isHead)]
  }

  function FixtureRow(profileIndex: u16, fi: FixtureInstance, def: FixtureDef): seq<byte> {
    FixtureFront(profileIndex, fi, def) + Flat(WordRows(Numbers(fi, def))) + [Flag(fi.invertPan), Flag(fi.invertTilt)]
  }

  function OrderCode(o: ColorOrder): byte {
    match o
    case RGB => 0
    case GRB => 1
    case BRG => 2
    case RBG => 3
    case GBR => 4
    case BGR => 5
  }

  function MatrixRow(m: MatrixMap): seq<byte> {
    Le16(m.width) + Le16(m.height) + [Flag(m.serpentine), Flag(m.vertical), OrderCode(m.order), m.startUniverse]
    + Le16(m.startChannel)
  }

  function ShortRow(s: seq<byte>): seq<byte> {
    [|s| % 256] + s
  }

  function WledRow(t: WledTarget): seq<byte> {
    ShortRow(t.name) + (ShortRow(t.ip) + (Le16(t.port) + [t.syncGroup]))
  }

  /** Every fixture's definition file was read. */
  predicate DefsKnown(p: Patch) {
    forall i :: 0 <= i < |p.fixtures| ==> p.fixtures[i].defFile in p.defs
  }

  type KnownPatch = p: Patch | DefsKnown(p) witness Patch(map[], 0, false, map[], [], [], [], [])

  function UniverseRows(p: Patch): (rows: seq<seq<byte>>)
    ensures |rows| == UniversesUsed(p)
  {
    seq(UniversesUsed(p), i requires 0 <= i < UniversesUsed(p) as int => UniverseRow(Version(p), Entry(p, i)))
  }

  function ProfileBlob(p: KnownPatch, i: nat): seq<byte>
    requires i < |Files(p.fixtures)|
  {
    var f := Files(p.fixtures)[i];
    assert f in Files(p.fixtures);
    p.defs[f].profileBlob
  }

  function ProfileRows(p: KnownPatch): (rows: seq<seq<byte>>)
    ensures |rows| == |Files(p.fixtures)|
  {
    seq(|Files(p.fixtures)|, i requires 0 <= i < |Files(p.fixtures)| => BlobRow(ProfileBlob(p, i)))
  }

  function ProfileIndex(p: KnownPatch, i: nat): (index: nat)
    requires i < |p.fixtures|
    ensures index < |Files(p.fixtures)| && Files(p.fixtures)[index] == p.fixtures[i].defFile
  {
    Position(Files(p.fixtures), p.fixtures[i].defFile)
  }

  function FixtureRows(p: KnownPatch): (rows: seq<seq<byte>>)
    ensures |rows| == |p.fixtures|
  {
    seq(|p.fixtures|, i requires 0 <= i < |p.fixtures| =>
      FixtureRow(ProfileIndex(p, i) % 0x1_0000, p.fixtures[i], p.defs[p.fixtures[i].defFile]))
  }

  function MatrixRows(p: Patch): (rows: seq<seq<byte>>)
    ensures |rows| == |p.matrices|
  {
    seq(|p.matrices|, i requires 0 <= i < |p.matrices| => MatrixRow(p.matrices[i]))
  }

  function ControllerRows(p: Patch): (rows: seq<seq<byte>>)
    ensures |rows| == |p.controllerBlobs|
  {
    seq(|p.controllerBlobs|, i requires 0 <= i < |p.controllerBlobs| => BlobRow(p.controllerBlobs[i]))
  }

  function WledRows(p: Patch): (rows: seq<seq<byte>>)
    ensures |rows| == |p.wledTargets|
  {
    seq(|p.wledTargets|, i requires 0 <= i < |p.wledTargets| => WledRow(p.wledTargets[i]))
  }

  function Parts(p: KnownPatch): (parts: seq<seq<byte>>)
    ensures |parts| == 7
  {
    [Header(p), Flat(UniverseRows(p)), Flat(ProfileRows(p)), Flat(FixtureRows(p)), Flat(MatrixRows(p)),
     Flat(ControllerRows(p)), Flat(WledRows(p))]
  }

  function Encoded(p: KnownPatch): seq<byte> {
    Flat(Parts(p))
  }

  // ---- limits ------------------------------------------------------------

  predicate WledOk(t: WledTarget) {
    |t.name| <= 255 && |t.ip| <= 255
  }

  /** What parsing establishes, and the counts and sizes the format can express. */
  predicate WithinLimits(p: KnownPatch) {
    p.maxUniverse < MAX_UNIVERSES &&
    (forall u <- p.universes :: p.universes[u].transport <= UNUSED) &&
    |p.fixtures| < 0x1_0000 && |p.matrices| < 0x1_0000 && |p.controllerBlobs| < 0x1_0000 && |p.wledTargets| < 0x1_0000 &&
    (forall i :: 0 <= i < |p.fixtures| ==> p.fixtures[i].universe < MAX_UNIVERSES) &&
    (forall i :: 0 <= i < |p.matrices| ==> p.matrices[i].startUniverse < MAX_UNIVERSES) &&
    (forall i :: 0 <= i < |p.wledTargets| ==> WledOk(p.wledTargets[i])) &&
    (forall i :: 0 <= i < |Files(p.fixtures)| ==> |ProfileBlob(p, i)| < 0x1_0000) &&
    (forall i :: 0 <= i < |p.controllerBlobs| ==> |p.controllerBlobs[i]| < 0x1_0000)
  }

  type FittingPatch = p: KnownPatch | WithinLimits(p) witness Patch(map[], 0, false, map[], [], [], [], [])

  predicate ProfilesParse(ps: Parsers, p: KnownPatch) {
    forall i :: 0 <= i < |Files(p.fixtures)| ==> ps.profile(ProfileBlob(p, i)).Some?
  }

  predicate ControllersParse(ps: Parsers, p: Patch) {
    forall i :: 0 <= i < |p.controllerBlobs| ==> ps.controller(p.controllerBlobs[i]).Some?
  }

  // ---- what a patch describes --------------------------------------------

  function DescribedUniverse(p: Patch, i: nat): Universe {
    var e := Entry(p, i);
    Universe(e.transport, if Version(p) >= 4 then ArtNetDest(e.destIp, e.wireUniverse) else ArtNetDest(0, i % 0x1_0000))
  }

  function DescribedUniverses(p: Patch): (us: seq<Universe>)
    ensures |us| == UniversesUsed(p)
  {
    seq(UniversesUsed(p), i requires 0 <= i < UniversesUsed(p) as int => DescribedUniverse(p, i))
  }

  function HeadOf(fi: FixtureInstance, def: FixtureDef): Head {
    Head(fi.position, fi.rotation, def.panRangeDeg, def.tiltRangeDeg, fi.panCenterNorm, fi.tiltCenterNorm,
         fi.invertPan, fi.invertTilt)
  }

  function FixtureWith(profile: FixtureProfile.Profile, fi: FixtureInstance, def: FixtureDef): PatchEntry {
    PatchEntry(profile, fi.universe, fi.base, if def.isHead then Some(HeadOf(fi, def)) else None)
  }

  function OwnProfile(p: KnownPatch, i: nat): seq<byte>
    requires i < |p.fixtures|
  {
    p.defs[p.fixtures[i].defFile].profileBlob
  }

  lemma ProfileOfFixture(ps: Parsers, p: KnownPatch, i: nat)
    requires i < |p.fixtures|
    ensures ProfileBlob(p, ProfileIndex(p, i)) == OwnProfile(p, i)
    ensures ProfilesParse(ps, p) ==> ps.profile(OwnProfile(p, i)).Some?
  {
  }

  /** Each fixture with the profile of its own definition file. */
  function DescribedFixtures(ps: Parsers, p: KnownPatch): (fs: seq<PatchEntry>)
    requires ProfilesParse(ps, p)
    ensures |fs| == |p.fixtures|
  {
    seq(|p.fixtures|, i requires 0 <= i < |p.fixtures| =>
      ProfileOfFixture(ps, p, i);
      FixtureWith(ps.profile(OwnProfile(p, i)).value, p.fixtures[i], p.defs[p.fixtures[i].defFile]))
  }

  function DescribedControllers(ps: Parsers, p: Patch): (cs: seq<Mdef.Controller>)
    requires ControllersParse(ps, p)
    ensures |cs| == |p.controllerBlobs|
  {
    seq(|p.controllerBlobs|, i requires 0 <= i < |p.controllerBlobs| => ps.controller(p.controllerBlobs[i]).value)
  }

  function Described(ps: Parsers, p: KnownPatch): LoadedShow
    requires ProfilesParse(ps, p) && ControllersParse(ps, p)
  {
    LoadedShow(DescribedUniverses(p), DescribedFixtures(ps, p), p.matrices, DescribedControllers(ps, p), p.wledTargets)
  }
}
