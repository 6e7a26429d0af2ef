/** What loadShow reads back from the bundle a patch compiles to. */
module ShowRoundTrip {
  import opened Bytes
  import opened Reading
  import opened Destinations
  import opened Wiring
  import opened ShowFormat
  import opened ShowBundle
  import FixtureProfile
  import Mdef

  // ---- one record --------------------------------------------------------

  lemma UniverseWrites(version: byte, e: UniverseEntry, i: nat)
    requires e.transport <= UNUSED
    ensures Writes(Universes(version), UniverseRow(version, e), i,
                   Universe(e.transport, if version >= 4 then ArtNetDest(e.destIp, e.wireUniverse)
                                         else ArtNetDest(0, i % 0x1_0000)))
  {
    var row := UniverseRow(version, e);
    forall d: seq<byte>, pos: nat | Holds(d, pos, row)
      ensures d[pos] == e.transport
      ensures version >= 4 ==> U32At(d, pos + 1) == e.destIp && U16At(d, pos + 5) == e.wireUniverse
    {
      HoldsByte(d, pos, row, 0);
      if version >= 4 {
        assert row[1..5] == Le32(e.destIp);
        HoldsU32(d, pos, row, 1, e.destIp);
        HoldsU16(d, pos, row, 5, e.wireUniverse);
      }
    }
  }

  lemma ProfileWrites(ps: Parsers, blob: seq<byte>, i: nat)
    requires |blob| < 0x1_0000
    ensures ps.profile(blob).Some? ==> Writes(Profiles(ps), BlobRow(blob), i, ps.profile(blob).value)
    ensures ps.profile(blob).None? ==> Refuses(Profiles(ps), BlobRow(blob), i)
  {
    forall d: seq<byte>, pos: nat | Holds(d, pos, BlobRow(blob)) ensures Blob(d, pos) == Got(blob, pos + |BlobRow(blob)|) {
      BlobReadsBack(d, pos, blob);
    }
  }

  lemma ControllerWrites(ps: Parsers, blob: seq<byte>, i: nat)
    requires |blob| < 0x1_0000
    ensures ps.controller(blob).Some? ==> Writes(Controllers(ps), BlobRow(blob), i, ps.controller(blob).value)
    ensures ps.controller(blob).None? ==> Refuses(Controllers(ps), BlobRow(blob), i)
  {
    forall d: seq<byte>, pos: nat | Holds(d, pos, BlobRow(blob)) ensures Blob(d, pos) == Got(blob, pos + |BlobRow(blob)|) {
      BlobReadsBack(d, pos, blob);
    }
  }

  lemma WordsReadBack(d: seq<byte>, pos: nat, w: seq<u32>)
    requires |w| == 10 && Holds(d, pos, Flat(WordRows(w)))
    ensures |Flat(WordRows(w))| == 40 && WordsAt(d, pos) == w
  {
    var rows := WordRows(w);
    FlatSize(rows, 4);
    forall k | 0 <= k < 10 ensures U32At(d, pos + 4 * k) == w[k] {
      TableRow(d, pos, rows, 4, k);
      Le32RoundTrip(d, pos + 4 * k, w[k]);
    }
  }

  lemma FixtureFrontReadsBack(d: seq<byte>, pos: nat, index: u16, fi: FixtureInstance, def: FixtureDef)
    requires Holds(d, pos, FixtureFront(index, fi, def))
    ensures U16At(d, pos) == index && d[pos + 2] == fi.universe && U16At(d, pos + 3) == fi.base
    ensures d[pos + 5] != 0 <==> def.isHead
  {
    var row := FixtureFront(index, fi, def);
    HoldsU16(d, pos, row, 0, index);
    HoldsU16(d, pos, row, 3, fi.base);
    HoldsByte(d, pos, row, 2);
    HoldsByte(d, pos, row, 5);
  }

  lemma FixtureReadsBack(d: seq<byte>, pos: nat, profiles: seq<FixtureProfile.Profile>, index: u16,
                         fi: FixtureInstance, def: FixtureDef)
    requires Holds(d, pos, FixtureRow(index, fi, def)) && index < |profiles| && fi.universe < MAX_UNIVERSES
    ensures |FixtureRow(index, fi, def)| == FIXTURE_SIZE
    ensures FixtureAt(profiles, d, pos) == Got(FixtureWith(profiles[index], fi, def), pos + FIXTURE_SIZE)
  {
    var front, words := FixtureFront(index, fi, def), Flat(WordRows(Numbers(fi, def)));
    var flags := [Flag(fi.invertPan), Flag(fi.invertTilt)];
    HoldsParts(d, pos, front + words, flags);
    HoldsParts(d, pos, front, words);
    FixtureFrontReadsBack(d, pos, index, fi, def);
    WordsReadBack(d, pos + |front|, Numbers(fi, def));
    var at := pos + |front + words|;
    assert at == pos + 46;
    HoldsByte(d, at, flags, 0);
    HoldsByte(d, at, flags, 1);
    HeadReadsBack(d, pos, fi, def);
  }

  lemma WordAt(d: seq<byte>, pos: nat, w: seq<u32>, k: nat)
    requires pos + 40 <= |d| && WordsAt(d, pos) == w && k < 10
    ensures U32At(d, pos + 4 * k) == w[k]
  {
    assert WordsAt(d, pos)[k] == w[k];
  }

  lemma HeadReadsBack(d: seq<byte>, pos: nat, fi: FixtureInstance, def: FixtureDef)
    requires pos + FIXTURE_SIZE <= |d| && WordsAt(d, pos + 6) == Numbers(fi, def)
    requires (d[pos + 46] != 0 <==> fi.invertPan) && (d[pos + 47] != 0 <==> fi.invertTilt)
    ensures HeadAt(d, pos) == HeadOf(fi, def)
  {
    var w := Numbers(fi, def);
    WordAt(d, pos + 6, w, 0);
    WordAt(d, pos + 6, w, 1);
    WordAt(d, pos + 6, w, 2);
    WordAt(d, pos + 6, w, 3);
    WordAt(d, pos + 6, w, 4);
    WordAt(d, pos + 6, w, 5);
    WordAt(d, pos + 6, w, 6);
    WordAt(d, pos + 6, w, 7);
    WordAt(d, pos + 6, w, 8);
    WordAt(d, pos + 6, w, 9);
  }

  /** Which bytes of a fixture's record hold what. */
  lemma RecordLayout(index: u16, fi: FixtureInstance, def: FixtureDef)
    ensures var r := FixtureRow(index, fi, def);
            |r| == 48 && U16At(r, 0) == index && r[2] == fi.universe && U16At(r, 3) == fi.base &&
            (r[5] != 0 <==> def.isHead) &&
            U32At(r, 6) == fi.position.x && U32At(r, 10) == fi.position.y && U32At(r, 14) == fi.position.z &&
            U32At(r, 18) == fi.rotation.x && U32At(r, 22) == fi.rotation.y && U32At(r, 26) == fi.rotation.z &&
            U32At(r, 30) == def.panRangeDeg && U32At(r, 34) == def.tiltRangeDeg &&
            U32At(r, 38) == fi.panCenterNorm && U32At(r, 42) == fi.tiltCenterNorm &&
            (r[46] != 0 <==> fi.invertPan) && (r[47] != 0 <==> fi.invertTilt)
  {
    var r := FixtureRow(index, fi, def);
    assert r[0..0 + |r|] == r;
    RecordRead(r, index, fi, def);
    assert HeadAt(r, 0) == HeadOf(fi, def);
  }

  lemma RecordRead(r: seq<byte>, index: u16, fi: FixtureInstance, def: FixtureDef)
    requires Holds(r, 0, FixtureRow(index, fi, def)) && |r| == |FixtureRow(index, fi, def)|
    ensures |r| == FIXTURE_SIZE && HeadAt(r, 0) == HeadOf(fi, def)
    ensures U16At(r, 0) == index && r[2] == fi.universe && U16At(r, 3) == fi.base && (r[5] != 0 <==> def.isHead)
  {
    var front, words := FixtureFront(index, fi, def), Flat(WordRows(Numbers(fi, def)));
    var flags := [Flag(fi.invertPan), Flag(fi.invertTilt)];
    HoldsParts(r, 0, front + words, flags);
    HoldsParts(r, 0, front, words);
    FixtureFrontReadsBack(r, 0, index, fi, def);
    WordsReadBack(r, 6, Numbers(fi, def));
    HoldsByte(r, 46, flags, 0);
    HoldsByte(r, 46, flags, 1);
    HeadReadsBack(r, 0, fi, def);
  }

  lemma FixtureWrites(profiles: seq<FixtureProfile.Profile>, index: u16, fi: FixtureInstance, def: FixtureDef, i: nat)
    requires index < |profiles| && fi.universe < MAX_UNIVERSES
    ensures Writes(Fixtures(profiles), FixtureRow(index, fi, def), i, FixtureWith(profiles[index], fi, def))
  {
    var row := FixtureRow(index, fi, def);
    forall d: seq<byte>, pos: nat | Holds(d, pos, row)
      ensures FixtureAt(profiles, d, pos) == Got(FixtureWith(profiles[index], fi, def), pos + |row|) {
      FixtureReadsBack(d, pos, profiles, index, fi, def);
    }
  }

  lemma MatrixWrites(m: MatrixMap, i: nat)
    requires m.startUniverse < MAX_UNIVERSES
    ensures Writes(Matrices(), MatrixRow(m), i, m)
  {
    var row := MatrixRow(m);
    forall d: seq<byte>, pos: nat | Holds(d, pos, row) ensures MatrixAt(d, pos) == Got(m, pos + |row|) {
      HoldsU16(d, pos, row, 0, m.width);
      HoldsU16(d, pos, row, 2, m.height);
      HoldsU16(d, pos, row, 8, m.startChannel);
      HoldsByte(d, pos, row, 4);
      HoldsByte(d, pos, row, 5);
      HoldsByte(d, pos, row, 6);
      HoldsByte(d, pos, row, 7);
      OrderReadsBack(m.order);
    }
  }

  lemma OrderReadsBack(o: ColorOrder)
    ensures OrderCode(o) <= 5 && OrderOf(OrderCode(o)) == o
  {
  }

  lemma ShortReadsBack(d: seq<byte>, pos: nat, s: seq<byte>)
    requires |s| <= 255 && Holds(d, pos, ShortRow(s))
    ensures ShortText(d, pos) == Got(s, pos + |ShortRow(s)|)
  {
    HoldsParts(d, pos, [|s| as byte], s);
    HoldsByte(d, pos, [|s| as byte], 0);
  }

  lemma WledReadsBack(d: seq<byte>, pos: nat, t: WledTarget)
    requires WledOk(t) && Holds(d, pos, WledRow(t))
    ensures WledAt(d, pos) == Got(t, pos + |WledRow(t)|)
  {
    var name, ip, tail := ShortRow(t.name), ShortRow(t.ip), Le16(t.port) + [t.syncGroup];
    HoldsParts(d, pos, name, ip + tail);
    HoldsParts(d, pos + |name|, ip, tail);
    ShortReadsBack(d, pos, t.name);
    ShortReadsBack(d, pos + |name|, t.ip);
    var end := pos + |name| + |ip|;
    HoldsU16(d, end, tail, 0, t.port);
    HoldsByte(d, end, tail, 2);
  }

  lemma WledWrites(t: WledTarget, i: nat)
    requires WledOk(t)
    ensures Writes(WledTargets(), WledRow(t), i, t)
  {
    forall d: seq<byte>, pos: nat | Holds(d, pos, WledRow(t)) ensures WledAt(d, pos) == Got(t, pos + |WledRow(t)|) {
      WledReadsBack(d, pos, t);
    }
  }

  // ---- header ------------------------------------------------------------

  lemma HeaderSizes(p: Patch)
    ensures |Header(p)| == HeaderSize(Version(p))
  {
  }

  function CountsOf(p: Patch): Counts {
    Counts(Version(p), UniversesUsed(p), |Files(p.fixtures)| % 0x1_0000, |p.fixtures| % 0x1_0000,
           |p.matrices| % 0x1_0000, |p.controllerBlobs| % 0x1_0000, |p.wledTargets| % 0x1_0000)
  }

  lemma HeaderReadsBack(p: Patch, d: seq<byte>)
    requires Holds(d, 0, Header(p)) && p.maxUniverse < MAX_UNIVERSES && Emitted(p)
    ensures HeaderOk(d) && CountsIn(d) == CountsOf(p)
  {
    var h, c := Header(p), CountsOf(p);
    HeaderSizes(p);
    assert h[0..4] == MAGIC;
    SliceOfSlice(d, 0, h, 0, MAGIC);
    HoldsByte(d, 0, h, 4);
    HoldsByte(d, 0, h, 5);
    HoldsU16(d, 0, h, 6, c.profiles);
    HoldsU16(d, 0, h, 8, c.fixtures);
    HoldsU16(d, 0, h, 10, c.matrices);
    LaterCounts(p, d);
  }

  /** A table the version has no count for is empty. */
  predicate Emitted(p: Patch) {
    (Version(p) < 2 ==> p.controllerBlobs == []) && (Version(p) < 3 ==> p.wledTargets == [])
  }

  lemma LaterCounts(p: Patch, d: seq<byte>)
    requires Holds(d, 0, Header(p))
    ensures Version(p) >= 2 ==> |d| >= 14 && U16At(d, 12) == |p.controllerBlobs| % 0x1_0000
    ensures Version(p) >= 3 ==> |d| >= 16 && U16At(d, 14) == |p.wledTargets| % 0x1_0000
  {
    var h := Header(p);
    HeaderSizes(p);
    if Version(p) >= 2 {
      HoldsU16(d, 0, h, 12, |p.controllerBlobs| % 0x1_0000);
    }
    if Version(p) >= 3 {
      HoldsU16(d, 0, h, 14, |p.wledTargets| % 0x1_0000);
    }
  }

  lemma NothingHidden(p: Patch)
    ensures Emitted(p)
  {
  }

  // ---- tables ------------------------------------------------------------

  lemma UniversesWritten(p: FittingPatch)
    ensures WritesAll(Universes(Version(p)), UniverseRows(p), DescribedUniverses(p))
  {
    forall i | 0 <= i < |UniverseRows(p)|
      ensures Writes(Universes(Version(p)), UniverseRows(p)[i], i, DescribedUniverses(p)[i]) {
      UniverseWrites(Version(p), Entry(p, i), i);
    }
  }

  /** The first `k` definition files' profiles parse. */
  predicate ProfilesParseTo(ps: Parsers, p: KnownPatch, k: nat) {
    k <= |Files(p.fixtures)| && forall i :: 0 <= i < k ==> ps.profile(ProfileBlob(p, i)).Some?
  }

  ghost function ProfileTable(ps: Parsers, p: FittingPatch, k: nat): (profiles: seq<FixtureProfile.Profile>)
    requires ProfilesParseTo(ps, p, k)
    ensures |profiles| == k
  {
    seq(k, i requires 0 <= i < k => ps.profile(ProfileBlob(p, i)).value)
  }

  lemma ProfilesWritten(ps: Parsers, p: FittingPatch, k: nat)
    requires ProfilesParseTo(ps, p, k)
    ensures WritesAll(Profiles(ps), ProfileRows(p)[..k], ProfileTable(ps, p, k))
    ensures k == |Files(p.fixtures)| ==> ProfileRows(p)[..k] == ProfileRows(p)
  {
    forall i | 0 <= i < k ensures Writes(Profiles(ps), ProfileRows(p)[i], i, ProfileTable(ps, p, k)[i]) {
      ProfileWrites(ps, ProfileBlob(p, i), i);
    }
  }

  ghost function AllProfiles(ps: Parsers, p: FittingPatch): (profiles: seq<FixtureProfile.Profile>)
    requires ProfilesParse(ps, p)
    ensures |profiles| == |Files(p.fixtures)|
  {
    ProfileTable(ps, p, |Files(p.fixtures)|)
  }

  lemma FixtureWritten(p: KnownPatch, profiles: seq<FixtureProfile.Profile>, i: nat)
    requires i < |p.fixtures| && |profiles| == |Files(p.fixtures)| < 0x1_0000
    requires p.fixtures[i].universe < MAX_UNIVERSES
    ensures Writes(Fixtures(profiles), FixtureRows(p)[i], i,
                   FixtureWith(profiles[ProfileIndex(p, i)], p.fixtures[i], p.defs[p.fixtures[i].defFile]))
  {
    FixtureRowAt(p, i);
    FixtureWrites(profiles, ProfileIndex(p, i), p.fixtures[i], p.defs[p.fixtures[i].defFile], i);
  }

  lemma FixtureRowAt(p: KnownPatch, i: nat)
    requires i < |p.fixtures| && |Files(p.fixtures)| < 0x1_0000
    ensures FixtureRows(p)[i] == FixtureRow(ProfileIndex(p, i), p.fixtures[i], p.defs[p.fixtures[i].defFile])
  {
    assert ProfileIndex(p, i) % 0x1_0000 == ProfileIndex(p, i);
  }

  /** The table entry a fixture's index selects is its own profile. */
  lemma IndexedProfile(ps: Parsers, p: FittingPatch, i: nat)
    requires ProfilesParse(ps, p) && i < |p.fixtures|
    ensures var fi := p.fixtures[i];
            DescribedFixtures(ps, p)[i] == FixtureWith(AllProfiles(ps, p)[ProfileIndex(p, i)], fi, p.defs[fi.defFile])
  {
    ProfileOfFixture(ps, p, i);
  }

  lemma FixturesWritten(ps: Parsers, p: FittingPatch)
    requires ProfilesParse(ps, p)
    ensures WritesAll(Fixtures(AllProfiles(ps, p)), FixtureRows(p), DescribedFixtures(ps, p))
  {
    var profiles := AllProfiles(ps, p);
    forall i | 0 <= i < |p.fixtures|
      ensures Writes(Fixtures(profiles), FixtureRows(p)[i], i, DescribedFixtures(ps, p)[i]) {
      FixtureWritten(p, profiles, i);
      IndexedProfile(ps, p, i);
    }
  }

  lemma MatricesWritten(p: FittingPatch)
    ensures WritesAll(Matrices(), MatrixRows(p), p.matrices)
  {
    forall i | 0 <= i < |p.matrices| ensures Writes(Matrices(), MatrixRows(p)[i], i, p.matrices[i]) {
      MatrixWrites(p.matrices[i], i);
    }
  }

  predicate ControllersParseTo(ps: Parsers, p: Patch, k: nat) {
    k <= |p.controllerBlobs| && forall i :: 0 <= i < k ==> ps.controller(p.controllerBlobs[i]).Some?
  }

  ghost function ControllerTable(ps: Parsers, p: Patch, k: nat): (cs: seq<Mdef.Controller>)
    requires ControllersParseTo(ps, p, k)
    ensures |cs| == k
  {
    seq(k, i requires 0 <= i < k => ps.controller(p.controllerBlobs[i]).value)
  }

  lemma ControllersWritten(ps: Parsers, p: FittingPatch, k: nat)
    requires ControllersParseTo(ps, p, k)
    ensures WritesAll(Controllers(ps), ControllerRows(p)[..k], ControllerTable(ps, p, k))
  {
    forall i | 0 <= i < k ensures Writes(Controllers(ps), ControllerRows(p)[i], i, ControllerTable(ps, p, k)[i]) {
      ControllerWrites(ps, p.controllerBlobs[i], i);
    }
  }

  lemma WledWritten(p: FittingPatch)
    ensures WritesAll(WledTargets(), WledRows(p), p.wledTargets)
  {
    forall i | 0 <= i < |p.wledTargets| ensures Writes(WledTargets(), WledRows(p)[i], i, p.wledTargets[i]) {
      WledWrites(p.wledTargets[i], i);
    }
  }

  lemma AllControllersWritten(ps: Parsers, p: FittingPatch)
    requires ControllersParse(ps, p)
    ensures WritesAll(Controllers(ps), ControllerRows(p), DescribedControllers(ps, p))
  {
    var n := |p.controllerBlobs|;
    ControllersWritten(ps, p, n);
    assert ControllerRows(p)[..n] == ControllerRows(p);
    assert ControllerTable(ps, p, n) == DescribedControllers(ps, p);
  }

  // ---- the bundle --------------------------------------------------------

  lemma HeaderLoads(p: FittingPatch)
    ensures HeaderOk(Encoded(p)) && CountsIn(Encoded(p)) == CountsOf(p)
    ensures PartStart(Parts(p), 1) == HeaderSize(Version(p))
  {
    PartAt(Parts(p), 0, Header(p));
    HeaderSizes(p);
    NothingHidden(p);
    HeaderReadsBack(p, Encoded(p));
  }

  ghost function GoodFront(ps: Parsers, p: FittingPatch): FrontTables
    requires ProfilesParse(ps, p)
  {
    FrontTables(UniverseRows(p), DescribedUniverses(p), ProfileRows(p), AllProfiles(ps, p),
                FixtureRows(p), DescribedFixtures(ps, p))
  }

  ghost function GoodBack(ps: Parsers, p: FittingPatch): BackTables
    requires ControllersParse(ps, p)
  {
    BackTables(MatrixRows(p), p.matrices, ControllerRows(p), DescribedControllers(ps, p), WledRows(p), p.wledTargets)
  }

  lemma GoodFrontFits(ps: Parsers, p: FittingPatch)
    requires ProfilesParse(ps, p)
    ensures FrontFits(ps, CountsOf(p), GoodFront(ps, p))
  {
    UniversesWritten(p);
    AllProfilesWritten(ps, p);
    FixturesWritten(ps, p);
  }

  lemma AllProfilesWritten(ps: Parsers, p: FittingPatch)
    requires ProfilesParse(ps, p)
    ensures WritesAll(Profiles(ps), ProfileRows(p), AllProfiles(ps, p))
  {
    ProfilesWritten(ps, p, |Files(p.fixtures)|);
  }

  lemma GoodBackFits(ps: Parsers, p: FittingPatch)
    requires ControllersParse(ps, p)
    ensures BackFits(ps, CountsOf(p), GoodBack(ps, p))
  {
    MatricesWritten(p);
    AllControllersWritten(ps, p);
    WledWritten(p);
  }

  lemma {:induction false} FirstBadProfile(ps: Parsers, p: FittingPatch, n: nat) returns (k: nat)
    requires n <= |Files(p.fixtures)| && !ProfilesParseTo(ps, p, n)
    ensures k < n && ProfilesParseTo(ps, p, k) && ps.profile(ProfileBlob(p, k)).None?
  {
    k := n - 1;
    if !ProfilesParseTo(ps, p, k) { k := FirstBadProfile(ps, p, k); }
  }

  lemma {:induction false} FirstBadController(ps: Parsers, p: FittingPatch, n: nat) returns (k: nat)
    requires n <= |p.controllerBlobs| && !ControllersParseTo(ps, p, n)
    ensures k < n && ControllersParseTo(ps, p, k) && ps.controller(p.controllerBlobs[k]).None?
  {
    k := n - 1;
    if !ControllersParseTo(ps, p, k) { k := FirstBadController(ps, p, k); }
  }

  ghost function FrontTo(ps: Parsers, p: FittingPatch, k: nat): FrontTables
    requires ProfilesParseTo(ps, p, k)
  {
    FrontTables(UniverseRows(p), DescribedUniverses(p), ProfileRows(p), ProfileTable(ps, p, k), FixtureRows(p), [])
  }

  ghost function BackTo(ps: Parsers, p: FittingPatch, k: nat): BackTables
    requires ControllersParseTo(ps, p, k)
  {
    BackTables(MatrixRows(p), p.matrices, ControllerRows(p), ControllerTable(ps, p, k), WledRows(p), p.wledTargets)
  }

  lemma BadFront(ps: Parsers, p: FittingPatch, k: nat)
    requires ProfilesParseTo(ps, p, k) && k < |Files(p.fixtures)| && ps.profile(ProfileBlob(p, k)).None?
    ensures BadProfileIn(ps, CountsOf(p), FrontTo(ps, p, k))
  {
    UniversesWritten(p);
    ProfilesWritten(ps, p, k);
    ProfileRefused(ps, p, k);
    BadFrontOf(ps, CountsOf(p), FrontTo(ps, p, k));
  }

  lemma ProfileRefused(ps: Parsers, p: FittingPatch, k: nat)
    requires k < |Files(p.fixtures)| && ps.profile(ProfileBlob(p, k)).None?
    ensures Refuses(Profiles(ps), ProfileRows(p)[k], k)
  {
    ProfileWrites(ps, ProfileBlob(p, k), k);
  }

  /** What makes a bad front, one condition a line. */
  lemma BadFrontOf(ps: Parsers, c: Counts, t: FrontTables)
    requires |t.universeRows| == c.universes
    requires |t.profileRows| == c.profiles
    requires |t.profiles| < |t.profileRows|
    requires WritesAll(Universes(c.version), t.universeRows, t.universes)
    requires WritesAll(Profiles(ps), t.profileRows[..|t.profiles|], t.profiles)
    requires Refuses(Profiles(ps), t.profileRows[|t.profiles|], |t.profiles|)
    ensures BadProfileIn(ps, c, t)
  {
  }

  lemma BadBack(ps: Parsers, p: FittingPatch, k: nat)
    requires ControllersParseTo(ps, p, k) && k < |p.controllerBlobs| && ps.controller(p.controllerBlobs[k]).None?
    ensures BadControllerIn(ps, CountsOf(p), BackTo(ps, p, k))
  {
    MatricesWritten(p);
    ControllersWritten(ps, p, k);
    ControllerWrites(ps, p.controllerBlobs[k], k);
  }

  predicate RowsOfFront(p: KnownPatch, t: FrontTables) {
    t.universeRows == UniverseRows(p) && t.profileRows == ProfileRows(p) && t.fixtureRows == FixtureRows(p)
  }

  predicate RowsOfBack(p: Patch, t: BackTables) {
    t.matrixRows == MatrixRows(p) && t.controllerRows == ControllerRows(p) && t.wledRows == WledRows(p)
  }

  /** The front of the bundle, as far as it parses. */
  lemma FrontOf(ps: Parsers, p: FittingPatch) returns (t: FrontTables)
    ensures RowsOfFront(p, t)
    ensures if ProfilesParse(ps, p) then t == GoodFront(ps, p) && FrontFits(ps, CountsOf(p), t)
            else BadProfileIn(ps, CountsOf(p), t)
  {
    if ProfilesParse(ps, p) {
      t := GoodFront(ps, p);
      GoodFrontFits(ps, p);
    } else {
      var k := FirstBadProfile(ps, p, |Files(p.fixtures)|);
      t := FrontTo(ps, p, k);
      BadFront(ps, p, k);
    }
  }

  lemma BackOf(ps: Parsers, p: FittingPatch) returns (t: BackTables)
    ensures RowsOfBack(p, t)
    ensures if ControllersParse(ps, p) then t == GoodBack(ps, p) && BackFits(ps, CountsOf(p), t)
            else BadControllerIn(ps, CountsOf(p), t)
  {
    if ControllersParse(ps, p) {
      t := GoodBack(ps, p);
      GoodBackFits(ps, p);
    } else {
      var k := FirstBadController(ps, p, |p.controllerBlobs|);
      t := BackTo(ps, p, k);
      BadBack(ps, p, k);
    }
  }

  /** For every patch within the format's limits and every version, the compiled
      bundle loads exactly when its embedded profiles and controllers parse; it then
      loads as what the patch describes, and its tables fill it to the last byte. */
  lemma RoundTrip(ps: Parsers, p: FittingPatch)
    ensures Load(ps, Encoded(p)).Got? <==> ProfilesParse(ps, p) && ControllersParse(ps, p)
    ensures Load(ps, Encoded(p)).Got? ==> Load(ps, Encoded(p)) == Got(Described(ps, p), |Encoded(p)|)
  {
    HeaderLoads(p);
    var f := FrontOf(ps, p);
    var b := BackOf(ps, p);
    assert Parts(p) == Bundle(Header(p), f, b);
    TablesLoad(ps, CountsOf(p), Parts(p), Header(p), f, b);
  }

  /** No strict prefix of a compiled bundle loads. */
  lemma PrefixesRejected(ps: Parsers, p: FittingPatch, n: nat)
    requires n < |Encoded(p)|
    ensures Load(ps, Encoded(p)[..n]).Fail?
  {
    RoundTrip(ps, p);
    var d := Encoded(p);
    if Load(ps, d[..n]).Got? { LoadLocal(ps, d[..n], d); }
  }

  /** UNIVERSE lines: a universe without an explicit route keeps the fallback
      address and its own number; an explicit one sets the version flag. */
  predicate Routed(p: Patch) {
    forall u <- p.universes :: p.universes[u].transport == ARTNET ==>
      if p.universes[u].hasExplicitRoute then p.anyExplicitArtnetRoute
      else p.universes[u].destIp == 0 && p.universes[u].wireUniverse == u
  }

  /** In every version the loader ends up with the destination the patch gave each
      Art-Net universe. */
  lemma DestinationsSurvive(ps: Parsers, p: FittingPatch, u: byte)
    requires Routed(p) && u in p.universes && u <= p.maxUniverse
    requires p.universes[u].transport == ARTNET
    requires Load(ps, Encoded(p)).Got?
    ensures |Load(ps, Encoded(p)).value.universes| == p.maxUniverse as int + 1
    ensures Load(ps, Encoded(p)).value.universes[u]
            == Universe(ARTNET, ArtNetDest(p.universes[u].destIp, p.universes[u].wireUniverse))
  {
    RoundTrip(ps, p);
    RoutedUniverse(p, u);
  }

  lemma RoutedUniverse(p: Patch, u: byte)
    requires Routed(p) && u in p.universes && u <= p.maxUniverse < MAX_UNIVERSES
    requires p.universes[u].transport == ARTNET
    ensures |DescribedUniverses(p)| == p.maxUniverse as int + 1
    ensures DescribedUniverses(p)[u] == Universe(ARTNET, ArtNetDest(p.universes[u].destIp, p.universes[u].wireUniverse))
  {
    assert DescribedUniverses(p)[u] == DescribedUniverse(p, u);
  }

  /** Every field of a loaded fixture is the field of that name of the patch, or of the
      fixture's own definition. */
  lemma FixtureFieldsSurvive(ps: Parsers, p: FittingPatch, i: nat)
    requires i < |p.fixtures| && Load(ps, Encoded(p)).Got?
    ensures |Load(ps, Encoded(p)).value.fixtures| == |p.fixtures|
    ensures var f := Load(ps, Encoded(p)).value.fixtures[i];
            var fi := p.fixtures[i];
            var def := p.defs[fi.defFile];
            ps.profile(def.profileBlob) == Some(f.profile) && f.universe == fi.universe && f.base == fi.base &&
            (f.head.Some? <==> def.isHead) &&
            (def.isHead ==>
              f.head.value.position == fi.position && f.head.value.rotation == fi.rotation &&
              f.head.value.panRangeDeg == def.panRangeDeg && f.head.value.tiltRangeDeg == def.tiltRangeDeg &&
              f.head.value.panCenterNorm == fi.panCenterNorm && f.head.value.tiltCenterNorm == fi.tiltCenterNorm &&
              f.head.value.invertPan == fi.invertPan && f.head.value.invertTilt == fi.invertTilt)
  {
    RoundTrip(ps, p);
    var entries := DescribedFixtures(ps, p);
    assert Load(ps, Encoded(p)).value.fixtures == entries;
    FieldsDescribed(ps, p, i);
  }

  lemma FieldsDescribed(ps: Parsers, p: FittingPatch, i: nat)
    requires i < |p.fixtures| && ProfilesParse(ps, p)
    ensures var f := DescribedFixtures(ps, p)[i];
            var fi := p.fixtures[i];
            var def := p.defs[fi.defFile];
            ps.profile(def.profileBlob) == Some(f.profile) && f.universe == fi.universe && f.base == fi.base &&
            f.head == if def.isHead then Some(Head(fi.position, fi.rotation, def.panRangeDeg, def.tiltRangeDeg,
                                                   fi.panCenterNorm, fi.tiltCenterNorm, fi.invertPan, fi.invertTilt))
                      else None
  {
    ProfileOfFixture(ps, p, i);
  }

  // ---- which bytes hold what ---------------------------------------------

  lemma {:induction false} HeaderLayout(p: Patch)
    ensures var h := Header(p);
            |h| >= 12 && h[..4] == [0x53, 0x48, 0x57, 0x31] && h[4] == Version(p) && h[5] == UniversesUsed(p) &&
            U16At(h, 6) == |Files(p.fixtures)| % 0x1_0000 && U16At(h, 8) == |p.fixtures| % 0x1_0000 &&
            U16At(h, 10) == |p.matrices| % 0x1_0000 &&
            (Version(p) >= 2 ==> |h| >= 14 && U16At(h, 12) == |p.controllerBlobs| % 0x1_0000) &&
            (Version(p) >= 3 ==> |h| == 16 && U16At(h, 14) == |p.wledTargets| % 0x1_0000)
  {
    var h, c := Header(p), CountsOf(p);
    assert h[0..0 + |h|] == h;
    HeaderSizes(p);
    assert h[..4] == MAGIC;
    HoldsU16(h, 0, h, 6, c.profiles);
    HoldsU16(h, 0, h, 8, c.fixtures);
    HoldsU16(h, 0, h, 10, c.matrices);
    LaterCounts(p, h);
  }

  lemma UniverseLayout(version: byte, e: UniverseEntry)
    ensures var r := UniverseRow(version, e);
            |r| == (if version >= 4 then 7 else 1) && r[0] == e.transport &&
            (version >= 4 ==> U32At(r, 1) == e.destIp && U16At(r, 5) == e.wireUniverse)
  {
    var r := UniverseRow(version, e);
    assert r[0..0 + |r|] == r;
    if version >= 4 {
      assert r[1..5] == Le32(e.destIp);
      HoldsU32(r, 0, r, 1, e.destIp);
      HoldsU16(r, 0, r, 5, e.wireUniverse);
    }
  }

  lemma MatrixLayout(m: MatrixMap)
    ensures var r := MatrixRow(m);
            |r| == 10 && U16At(r, 0) == m.width && U16At(r, 2) == m.height && (r[4] != 0 <==> m.serpentine) &&
            (r[5] != 0 <==> m.vertical) && r[7] == m.startUniverse && U16At(r, 8) == m.startChannel &&
            r[6] == match m.order case RGB => 0 case GRB => 1 case BRG => 2 case RBG => 3 case GBR => 4 case BGR => 5
  {
    var r := MatrixRow(m);
    assert r[0..0 + |r|] == r;
    HoldsU16(r, 0, r, 0, m.width);
    HoldsU16(r, 0, r, 2, m.height);
    HoldsU16(r, 0, r, 8, m.startChannel);
  }

  lemma WledLayout(t: WledTarget)
    requires WledOk(t)
    ensures var r, n, k := WledRow(t), |t.name|, |t.ip|;
            |r| == n + k + 5 && r[0] == n && r[1..1 + n] == t.name && r[1 + n] == k && r[2 + n..2 + n + k] == t.ip &&
            U16At(r, 2 + n + k) == t.port && r[4 + n + k] == t.syncGroup
  {
    var r, n, k := WledRow(t), |t.name|, |t.ip|;
    var tail := Le16(t.port) + [t.syncGroup];
    assert r == [n as byte] + t.name + [k as byte] + t.ip + tail;
    assert r[2 + n + k..2 + n + k + |tail|] == tail;
    HoldsU16(r, 2 + n + k, tail, 0, t.port);
  }

  /** The version is the least that carries what the patch uses, and an unmentioned
      universe is unused. */
  lemma VersionRule(p: Patch, i: nat)
    ensures Header(p)[4] == if p.anyExplicitArtnetRoute then 4 else if p.wledTargets != [] then 3
                            else if p.controllerBlobs != [] then 2 else 1
    ensures Header(p)[5] as int == (p.maxUniverse as int + 1) % 256
    ensures i < 256 && i as byte !in p.universes ==> Entry(p, i) == UniverseEntry(3, 0, 0, false)
    ensures i < 256 && i as byte in p.universes ==> Entry(p, i) == p.universes[i as byte]
  {
    HeaderLayout(p);
  }

  lemma {:induction false} OneMorePart(front: seq<seq<byte>>, last: seq<byte>)
    ensures Flat(front + [last]) == Flat(front) + last
  {
    assert (front + [last])[..|front|] == front;
  }

  lemma {:induction false} SevenParts(a: seq<byte>, b: seq<byte>, c: seq<byte>, d: seq<byte>, e: seq<byte>, f: seq<byte>, g: seq<byte>)
    ensures Flat([a, b, c, d, e, f, g]) == a + b + c + d + e + f + g
  {
    OneMorePart([], a);
    OneMorePart([a], b);
    OneMorePart([a, b], c);
    OneMorePart([a, b, c], d);
    OneMorePart([a, b, c, d], e);
    OneMorePart([a, b, c, d, e], f);
    OneMorePart([a, b, c, d, e, f], g);
    assert [] + [a] == [a] && [a] + [b] == [a, b] && [a, b] + [c] == [a, b, c];
    assert [a, b, c] + [d] == [a, b, c, d] && [a, b, c, d] + [e] == [a, b, c, d, e];
    assert [a, b, c, d, e] + [f] == [a, b, c, d, e, f] && [a, b, c, d, e, f] + [g] == [a, b, c, d, e, f, g];
  }

  /** The tables stand in this order, nothing between them. */
  lemma {:induction false} TablesInOrder(p: KnownPatch)
    ensures Encoded(p) == Header(p) + Flat(UniverseRows(p)) + Flat(ProfileRows(p)) + Flat(FixtureRows(p))
                          + Flat(MatrixRows(p)) + Flat(ControllerRows(p)) + Flat(WledRows(p))
  {
    SevenParts(Header(p), Flat(UniverseRows(p)), Flat(ProfileRows(p)), Flat(FixtureRows(p)), Flat(MatrixRows(p)),
               Flat(ControllerRows(p)), Flat(WledRows(p)));
  }
}
