/** The SHW1 bundle of show_bundle.cpp: what a loaded show holds, and what loadShow
    makes of any byte string. */
module ShowFormat {
  import opened Bytes
  import opened Reading
  import opened Destinations
  import opened Wiring
  import FixtureProfile
  import Mdef

  const MAGIC: seq<byte> := [0x53, 0x48, 0x57, 0x31]
  const MAX_UNIVERSES: byte := 8

  // UniverseTransport
  const DMX: byte := 0
  const ARTNET: byte := 1
  const UNUSED: byte := 3

  /** Floats are their 32-bit patterns. */
  datatype Vec3 = Vec3(x: u32, y: u32, z: u32)

  datatype Head = Head(
    position: Vec3, rotation: Vec3, panRangeDeg: u32, tiltRangeDeg: u32,
    panCenterNorm: u32, tiltCenterNorm: u32, invertPan: bool, invertTilt: bool)

  datatype PatchEntry = PatchEntry(
    profile: FixtureProfile.Profile, universe: byte, base: u16, head: Option<Head>)

  datatype WledTarget = WledTarget(name: seq<byte>, ip: seq<byte>, port: u16, syncGroup: byte)

  datatype Universe = Universe(transport: byte, dest: ArtNetDest)

  datatype LoadedShow = LoadedShow(
    universes: seq<Universe>,
    fixtures: seq<PatchEntry>,
    matrices: seq<MatrixMap>,
    controllers: seq<Mdef.Controller>,
    wledTargets: seq<WledTarget>)

  // ---- header ------------------------------------------------------------

  datatype Counts = Counts(
    version: byte, universes: byte, profiles: u16, fixtures: u16, matrices: u16, controllers: u16, wled: u16)

  function HeaderSize(version: byte): nat {
    if version >= 3 then 16 else if version == 2 then 14 else 12
  }

  predicate HeaderOk(d: seq<byte>) {
    |d| >= 6 && d[..4] == MAGIC && 1 <= d[4] <= 4 && d[5] <= MAX_UNIVERSES && |d| >= HeaderSize(d[4])
  }

  function CountsIn(d: seq<byte>): Counts
    requires HeaderOk(d)
  {
    Counts(d[4], d[5], U16At(d, 6), U16At(d, 8), U16At(d, 10),
           if d[4] >= 2 then U16At(d, 12) else 0, if d[4] >= 3 then U16At(d, 14) else 0)
  }

  // ---- entries -----------------------------------------------------------

  function UniverseWidth(version: byte): nat {
    if version >= 4 then 7 else 1
  }

  /** Before version 4 a universe goes to the fallback under its own index. */
  function UniverseAt(version: byte, d: seq<byte>, pos: nat, i: nat): Read<Universe> {
    if pos + UniverseWidth(version) > |d| || d[pos] > UNUSED then Fail
    else
      var dest := if version >= 4 then ArtNetDest(U32At(d, pos + 1), U16At(d, pos + 5)) else ArtNetDest(0, i % 0x1_0000);
      Got(Universe(d[pos], dest), pos + UniverseWidth(version))
  }

  /** What parseProfile and parseMidiController make of an embedded blob. */
  datatype Parsers = Parsers(
    profile: seq<byte> -> Option<FixtureProfile.Profile>,
    controller: seq<byte> -> Option<Mdef.Controller>)

  function ProfileAt(ps: Parsers, d: seq<byte>, pos: nat): Read<FixtureProfile.Profile> {
    match Blob(d, pos)
    case Fail => Fail
    case Got(blob, next) => Embedded(ps.profile(blob), next)
  }

  function Embedded<T>(parsed: Option<T>, next: nat): Read<T> {
    match parsed
    case None => Fail
    case Some(v) => Got(v, next)
  }

  function WordsAt(d: seq<byte>, pos: nat): (w: seq<u32>)
    requires pos + 40 <= |d|
    ensures |w| == 10
  {
    seq(10, k requires 0 <= k < 10 => U32At(d, pos + 4 * k))
  }

  // The fields of a fixture record add up to 48 bytes, though the loader's own
  // up-front check, and the format comment, say 46; likewise 10 and 8 for a matrix.
  const FIXTURE_SIZE: nat := 48
  const MATRIX_SIZE: nat := 10

  function Vec3At(d: seq<byte>, pos: nat): Vec3
    requires pos + 12 <= |d|
  {
    Vec3(U32At(d, pos), U32At(d, pos + 4), U32At(d, pos + 8))
  }

  /** The head fields of a fixture record. */
  function HeadAt(d: seq<byte>, pos: nat): Head
    requires pos + FIXTURE_SIZE <= |d|
  {
    Head(Vec3At(d, pos + 6), Vec3At(d, pos + 18), U32At(d, pos + 30), U32At(d, pos + 34),
         U32At(d, pos + 38), U32At(d, pos + 42), d[pos + 46] != 0, d[pos + 47] != 0)
  }

  function FixtureAt(profiles: seq<FixtureProfile.Profile>, d: seq<byte>, pos: nat): Read<PatchEntry> {
    if pos + FIXTURE_SIZE > |d| || U16At(d, pos) >= |profiles| || d[pos + 2] >= MAX_UNIVERSES then Fail
    else
      Got(PatchEntry(profiles[U16At(d, pos)], d[pos + 2], U16At(d, pos + 3),
                     if d[pos + 5] != 0 then Some(HeadAt(d, pos)) else None),
          pos + FIXTURE_SIZE)
  }

  function OrderOf(code: byte): ColorOrder
    requires code <= 5
  {
    [RGB, GRB, BRG, RBG, GBR, BGR][code]
  }

  function MatrixAt(d: seq<byte>, pos: nat): Read<MatrixMap> {
    if pos + MATRIX_SIZE > |d| || d[pos + 6] > 5 || d[pos + 7] >= MAX_UNIVERSES then Fail
    else
      Got(MatrixMap(U16At(d, pos), U16At(d, pos + 2), d[pos + 4] != 0, d[pos + 5] != 0, OrderOf(d[pos + 6]),
                    d[pos + 7], U16At(d, pos + 8)),
          pos + MATRIX_SIZE)
  }

  function ControllerAt(ps: Parsers, d: seq<byte>, pos: nat): Read<Mdef.Controller> {
    match Blob(d, pos)
    case Fail => Fail
    case Got(blob, next) => Embedded(ps.controller(blob), next)
  }

  /** An 8-bit length and that many bytes. */
  function ShortText(d: seq<byte>, pos: nat): Read<seq<byte>> {
    match U8(d, pos)
    case Fail => Fail
    case Got(len, next) => Text(d, next, len)
  }

  function WledAt(d: seq<byte>, pos: nat): Read<WledTarget> {
    match ShortText(d, pos)
    case Fail => Fail
    case Got(name, afterName) =>
      match ShortText(d, afterName)
      case Fail => Fail
      case Got(ip, afterIp) =>
        if afterIp + 3 > |d| then Fail
        else Got(WledTarget(name, ip, U16At(d, afterIp), d[afterIp + 2]), afterIp + 3)
  }

  // ---- tables ------------------------------------------------------------

  function Universes(version: byte): Reader<Universe> {
    (d: seq<byte>, pos: nat, i: nat) => UniverseAt(version, d, pos, i)
  }

  function Profiles(ps: Parsers): Reader<FixtureProfile.Profile> {
    (d: seq<byte>, pos: nat, i: nat) => ProfileAt(ps, d, pos)
  }

  function Fixtures(profiles: seq<FixtureProfile.Profile>): Reader<PatchEntry> {
    (d: seq<byte>, pos: nat, i: nat) => FixtureAt(profiles, d, pos)
  }

  function Matrices(): Reader<MatrixMap> {
    (d: seq<byte>, pos: nat, i: nat) => MatrixAt(d, pos)
  }

  function Controllers(ps: Parsers): Reader<Mdef.Controller> {
    (d: seq<byte>, pos: nat, i: nat) => ControllerAt(ps, d, pos)
  }

  function WledTargets(): Reader<WledTarget> {
    (d: seq<byte>, pos: nat, i: nat) => WledAt(d, pos)
  }

  /** Universes, then profiles and the fixtures that use them. */
  ghost function Front(ps: Parsers, c: Counts, d: seq<byte>): Read<(seq<Universe>, seq<PatchEntry>)> {
    match Many(Universes(c.version), d, HeaderSize(c.version), c.universes)
    case Fail => Fail
    case Got(universes, p1) =>
      match Many(Profiles(ps), d, p1, c.profiles)
      case Fail => Fail
      case Got(profiles, p2) =>
        match Many(Fixtures(profiles), d, p2, c.fixtures)
        case Fail => Fail
        case Got(fixtures, p3) => Got((universes, fixtures), p3)
  }

  ghost function Back(ps: Parsers, c: Counts, d: seq<byte>, pos: nat)
    : Read<(seq<MatrixMap>, seq<Mdef.Controller>, seq<WledTarget>)>
  {
    match Many(Matrices(), d, pos, c.matrices)
    case Fail => Fail
    case Got(matrices, p4) =>
      match Many(Controllers(ps), d, p4, c.controllers)
      case Fail => Fail
      case Got(controllers, p5) =>
        match Many(WledTargets(), d, p5, c.wled)
        case Fail => Fail
        case Got(wled, p6) => Got((matrices, controllers, wled), p6)
  }

  /** What loading `d` yields; bytes after the last table are not looked at. */
  ghost function Load(ps: Parsers, d: seq<byte>): Read<LoadedShow> {
    if !HeaderOk(d) then Fail else
      match Front(ps, CountsIn(d), d)
      case Fail => Fail
      case Got(front, next) =>
        match Back(ps, CountsIn(d), d, next)
        case Fail => Fail
        case Got(back, end) => Got(LoadedShow(front.0, front.1, back.0, back.1, back.2), end)
  }

  // ---- loading well-formed tables ----------------------------------------

  datatype FrontTables = FrontTables(
    universeRows: seq<seq<byte>>, universes: seq<Universe>,
    profileRows: seq<seq<byte>>, profiles: seq<FixtureProfile.Profile>,
    fixtureRows: seq<seq<byte>>, fixtures: seq<PatchEntry>)

  datatype BackTables = BackTables(
    matrixRows: seq<seq<byte>>, matrices: seq<MatrixMap>,
    controllerRows: seq<seq<byte>>, controllers: seq<Mdef.Controller>,
    wledRows: seq<seq<byte>>, wledTargets: seq<WledTarget>)

  ghost predicate FrontFits(ps: Parsers, c: Counts, t: FrontTables) {
    |t.universeRows| == c.universes && |t.profileRows| == c.profiles && |t.fixtureRows| == c.fixtures &&
    WritesAll(Universes(c.version), t.universeRows, t.universes) &&
    WritesAll(Profiles(ps), t.profileRows, t.profiles) &&
    WritesAll(Fixtures(t.profiles), t.fixtureRows, t.fixtures)
  }

  ghost predicate BackFits(ps: Parsers, c: Counts, t: BackTables) {
    |t.matrixRows| == c.matrices && |t.controllerRows| == c.controllers && |t.wledRows| == c.wled &&
    WritesAll(Matrices(), t.matrixRows, t.matrices) &&
    WritesAll(Controllers(ps), t.controllerRows, t.controllers) &&
    WritesAll(WledTargets(), t.wledRows, t.wledTargets)
  }

  /** The parts of a bundle. */
  function Bundle(header: seq<byte>, f: FrontTables, b: BackTables): (parts: seq<seq<byte>>)
    ensures |parts| == 7
  {
    [header, Flat(f.universeRows), Flat(f.profileRows), Flat(f.fixtureRows), Flat(b.matrixRows),
     Flat(b.controllerRows), Flat(b.wledRows)]
  }

  lemma FrontIs(ps: Parsers, c: Counts, d: seq<byte>, p1: nat, p2: nat, p3: nat, t: FrontTables)
    requires Many(Universes(c.version), d, HeaderSize(c.version), c.universes) == Got(t.universes, p1)
    requires Many(Profiles(ps), d, p1, c.profiles) == Got(t.profiles, p2)
    requires Many(Fixtures(t.profiles), d, p2, c.fixtures) == Got(t.fixtures, p3)
    ensures Front(ps, c, d) == Got((t.universes, t.fixtures), p3)
  {
  }

  lemma FrontReads(ps: Parsers, c: Counts, parts: seq<seq<byte>>, t: FrontTables)
    requires FrontFits(ps, c, t) && |parts| == 7 && PartStart(parts, 1) == HeaderSize(c.version)
    requires parts[1] == Flat(t.universeRows) && parts[2] == Flat(t.profileRows) && parts[3] == Flat(t.fixtureRows)
    ensures Front(ps, c, Flat(parts)) == Got((t.universes, t.fixtures), PartStart(parts, 4))
  {
    TableReads(Universes(c.version), parts, 1, t.universeRows, t.universes);
    TableReads(Profiles(ps), parts, 2, t.profileRows, t.profiles);
    TableReads(Fixtures(t.profiles), parts, 3, t.fixtureRows, t.fixtures);
    FrontIs(ps, c, Flat(parts), PartStart(parts, 2), PartStart(parts, 3), PartStart(parts, 4), t);
  }

  lemma LastPartEnds(parts: seq<seq<byte>>)
    ensures PartStart(parts, |parts|) == |Flat(parts)|
  {
    assert parts[..|parts|] == parts;
  }

  lemma BackIs(ps: Parsers, c: Counts, d: seq<byte>, p4: nat, p5: nat, p6: nat, p7: nat, t: BackTables)
    requires Many(Matrices(), d, p4, c.matrices) == Got(t.matrices, p5)
    requires Many(Controllers(ps), d, p5, c.controllers) == Got(t.controllers, p6)
    requires Many(WledTargets(), d, p6, c.wled) == Got(t.wledTargets, p7)
    ensures Back(ps, c, d, p4) == Got((t.matrices, t.controllers, t.wledTargets), p7)
  {
  }

  lemma BackReads(ps: Parsers, c: Counts, parts: seq<seq<byte>>, t: BackTables)
    requires BackFits(ps, c, t) && |parts| == 7
    requires parts[4] == Flat(t.matrixRows) && parts[5] == Flat(t.controllerRows) && parts[6] == Flat(t.wledRows)
    ensures Back(ps, c, Flat(parts), PartStart(parts, 4))
            == Got((t.matrices, t.controllers, t.wledTargets), |Flat(parts)|)
  {
    TableReads(Matrices(), parts, 4, t.matrixRows, t.matrices);
    TableReads(Controllers(ps), parts, 5, t.controllerRows, t.controllers);
    TableReads(WledTargets(), parts, 6, t.wledRows, t.wledTargets);
    LastPartEnds(parts);
    BackIs(ps, c, Flat(parts), PartStart(parts, 4), PartStart(parts, 5), PartStart(parts, 6), PartStart(parts, 7), t);
  }

  /** The same tables with a profile that does not parse after `|t.profiles|` that do. */
  ghost predicate BadProfileIn(ps: Parsers, c: Counts, t: FrontTables) {
    |t.universeRows| == c.universes && |t.profileRows| == c.profiles && |t.profiles| < |t.profileRows| &&
    WritesAll(Universes(c.version), t.universeRows, t.universes) &&
    WritesAll(Profiles(ps), t.profileRows[..|t.profiles|], t.profiles) &&
    Refuses(Profiles(ps), t.profileRows[|t.profiles|], |t.profiles|)
  }

  ghost predicate BadControllerIn(ps: Parsers, c: Counts, t: BackTables) {
    |t.matrixRows| == c.matrices && |t.controllerRows| == c.controllers && |t.controllers| < |t.controllerRows| &&
    WritesAll(Matrices(), t.matrixRows, t.matrices) &&
    WritesAll(Controllers(ps), t.controllerRows[..|t.controllers|], t.controllers) &&
    Refuses(Controllers(ps), t.controllerRows[|t.controllers|], |t.controllers|)
  }

  lemma FrontStops(ps: Parsers, c: Counts, parts: seq<seq<byte>>, t: FrontTables)
    requires BadProfileIn(ps, c, t) && |parts| == 7 && PartStart(parts, 1) == HeaderSize(c.version)
    requires parts[1] == Flat(t.universeRows) && parts[2] == Flat(t.profileRows)
    ensures Front(ps, c, Flat(parts)).Fail?
  {
    TableReads(Universes(c.version), parts, 1, t.universeRows, t.universes);
    TableStops(Profiles(ps), parts, 2, t.profileRows, t.profiles);
  }

  lemma BackStops(ps: Parsers, c: Counts, parts: seq<seq<byte>>, t: BackTables)
    requires BadControllerIn(ps, c, t) && |parts| == 7
    requires parts[4] == Flat(t.matrixRows) && parts[5] == Flat(t.controllerRows)
    ensures Back(ps, c, Flat(parts), PartStart(parts, 4)).Fail?
  {
    TableReads(Matrices(), parts, 4, t.matrixRows, t.matrices);
    TableStops(Controllers(ps), parts, 5, t.controllerRows, t.controllers);
  }

  /** A header followed by the tables it counts loads as those tables' contents, or
      not at all if an embedded blob does not parse. */
  lemma TablesLoad(ps: Parsers, c: Counts, parts: seq<seq<byte>>, header: seq<byte>, f: FrontTables, b: BackTables)
    requires parts == Bundle(header, f, b) && HeaderOk(Flat(parts)) && CountsIn(Flat(parts)) == c
    requires PartStart(parts, 1) == HeaderSize(c.version)
    requires FrontFits(ps, c, f) || BadProfileIn(ps, c, f)
    requires BackFits(ps, c, b) || BadControllerIn(ps, c, b)
    ensures Load(ps, Flat(parts)).Got? <==> FrontFits(ps, c, f) && BackFits(ps, c, b)
    ensures Load(ps, Flat(parts)).Got? ==>
              Load(ps, Flat(parts)) == Got(LoadedShow(f.universes, f.fixtures, b.matrices, b.controllers, b.wledTargets),
                                           |Flat(parts)|)
  {
    if FrontFits(ps, c, f) {
      FrontReads(ps, c, parts, f);
      if BackFits(ps, c, b) { BackReads(ps, c, parts, b); } else { BackStops(ps, c, parts, b); }
    } else {
      FrontStops(ps, c, parts, f);
    }
  }

  // ---- a show found in a prefix is the show ------------------------------

  lemma UniversesLocal(version: byte)
    ensures Local(Universes(version))
  {
    forall p: seq<byte>, d: seq<byte>, pos: nat, i: nat | p <= d && UniverseAt(version, p, pos, i).Got?
      ensures UniverseAt(version, d, pos, i) == UniverseAt(version, p, pos, i)
    {
      NumbersLocal(p, d, pos + 1);
      NumbersLocal(p, d, pos + 5);
    }
  }

  lemma ProfilesLocal(ps: Parsers)
    ensures Local(Profiles(ps))
  {
    forall p: seq<byte>, d: seq<byte>, pos: nat | p <= d && ProfileAt(ps, p, pos).Got?
      ensures ProfileAt(ps, d, pos) == ProfileAt(ps, p, pos) && ProfileAt(ps, p, pos).next <= |p|
    {
      BlobLocal(p, d, pos);
    }
  }

  lemma FixturesLocal(profiles: seq<FixtureProfile.Profile>)
    ensures Local(Fixtures(profiles))
  {
    forall p: seq<byte>, d: seq<byte>, pos: nat | p <= d && FixtureAt(profiles, p, pos).Got?
      ensures FixtureAt(profiles, d, pos) == FixtureAt(profiles, p, pos)
    {
      NumbersLocal(p, d, pos);
      NumbersLocal(p, d, pos + 3);
      WordsLocal(p, d, pos + 6);
    }
  }

  lemma WordsLocal(p: seq<byte>, d: seq<byte>, pos: nat)
    requires p <= d && pos + 40 <= |p|
    ensures WordsAt(d, pos) == WordsAt(p, pos)
  {
    forall k | 0 <= k < 10 ensures U32At(d, pos + 4 * k) == U32At(p, pos + 4 * k) {
      NumbersLocal(p, d, pos + 4 * k);
    }
  }

  lemma MatricesLocal()
    ensures Local(Matrices())
  {
    forall p: seq<byte>, d: seq<byte>, pos: nat | p <= d && MatrixAt(p, pos).Got?
      ensures MatrixAt(d, pos) == MatrixAt(p, pos)
    {
      NumbersLocal(p, d, pos);
      NumbersLocal(p, d, pos + 2);
      NumbersLocal(p, d, pos + 8);
    }
  }

  lemma ControllersLocal(ps: Parsers)
    ensures Local(Controllers(ps))
  {
    forall p: seq<byte>, d: seq<byte>, pos: nat | p <= d && ControllerAt(ps, p, pos).Got?
      ensures ControllerAt(ps, d, pos) == ControllerAt(ps, p, pos) && ControllerAt(ps, p, pos).next <= |p|
    {
      BlobLocal(p, d, pos);
    }
  }

  lemma ShortTextLocal(p: seq<byte>, d: seq<byte>, pos: nat)
    requires p <= d && ShortText(p, pos).Got?
    ensures ShortText(d, pos) == ShortText(p, pos) && ShortText(p, pos).next <= |p|
  {
    TextLocal(p, d, pos + 1, p[pos]);
  }

  lemma WledLocal()
    ensures Local(WledTargets())
  {
    forall p: seq<byte>, d: seq<byte>, pos: nat | p <= d && WledAt(p, pos).Got?
      ensures WledAt(d, pos) == WledAt(p, pos) && WledAt(p, pos).next <= |p|
    {
      ShortTextLocal(p, d, pos);
      ShortTextLocal(p, d, ShortText(p, pos).next);
      NumbersLocal(p, d, ShortText(p, ShortText(p, pos).next).next);
    }
  }

  lemma FrontLocal(ps: Parsers, c: Counts, p: seq<byte>, d: seq<byte>)
    requires p <= d && HeaderSize(c.version) <= |p| && Front(ps, c, p).Got?
    ensures Front(ps, c, d) == Front(ps, c, p) && Front(ps, c, p).next <= |p|
  {
    UniversesLocal(c.version);
    ManyLocal(Universes(c.version), p, d, HeaderSize(c.version), c.universes);
    var p1 := Many(Universes(c.version), p, HeaderSize(c.version), c.universes).next;
    ProfilesLocal(ps);
    ManyLocal(Profiles(ps), p, d, p1, c.profiles);
    var profiles := Many(Profiles(ps), p, p1, c.profiles);
    FixturesLocal(profiles.value);
    ManyLocal(Fixtures(profiles.value), p, d, profiles.next, c.fixtures);
  }

  lemma BackLocal(ps: Parsers, c: Counts, p: seq<byte>, d: seq<byte>, pos: nat)
    requires p <= d && pos <= |p| && Back(ps, c, p, pos).Got?
    ensures Back(ps, c, d, pos) == Back(ps, c, p, pos) && Back(ps, c, p, pos).next <= |p|
  {
    MatricesLocal();
    ManyLocal(Matrices(), p, d, pos, c.matrices);
    var p4 := Many(Matrices(), p, pos, c.matrices).next;
    ControllersLocal(ps);
    ManyLocal(Controllers(ps), p, d, p4, c.controllers);
    var p5 := Many(Controllers(ps), p, p4, c.controllers).next;
    WledLocal();
    ManyLocal(WledTargets(), p, d, p5, c.wled);
  }

  lemma HeaderLocal(p: seq<byte>, d: seq<byte>)
    requires p <= d && HeaderOk(p)
    ensures HeaderOk(d) && CountsIn(d) == CountsIn(p)
  {
    TextLocal(p, d, 0, 4);
    NumbersLocal(p, d, 6);
    NumbersLocal(p, d, 8);
    NumbersLocal(p, d, 10);
    NumbersLocal(p, d, 12);
    NumbersLocal(p, d, 14);
  }

  /** If a prefix loads, the whole string loads as the same show and ends inside
      that prefix: loading never depends on what follows. */
  lemma LoadLocal(ps: Parsers, p: seq<byte>, d: seq<byte>)
    requires p <= d && Load(ps, p).Got?
    ensures Load(ps, d) == Load(ps, p) && Load(ps, p).next <= |p|
  {
    HeaderLocal(p, d);
    FrontLocal(ps, CountsIn(p), p, d);
    BackLocal(ps, CountsIn(p), p, d, Front(ps, CountsIn(p), p).next);
  }

  /** A bundle whose tables fill it exactly has no loadable strict prefix. */
  lemma StrictPrefixRejected(ps: Parsers, d: seq<byte>, n: nat)
    requires Load(ps, d).Got? && Load(ps, d).next == |d| && n < |d|
    ensures Load(ps, d[..n]).Fail?
  {
    if Load(ps, d[..n]).Got? { LoadLocal(ps, d[..n], d); }
  }
}
