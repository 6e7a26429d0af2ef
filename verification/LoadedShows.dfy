/** What every show that loads is like, whatever the bytes it was loaded from. */
module LoadedShows {
  import opened Bytes
  import opened Reading
  import opened ShowFormat
  import opened Wiring
  import FixtureProfile
  import ProfileFormat
  import Mdef
  import ControllerFormat
  import ShowLoader

  /** Each entry of a table was read somewhere in the bytes. */
  lemma {:induction false} EntryRead<T>(read: Reader<T>, d: seq<byte>, pos: nat, n: nat, k: nat) returns (at: nat)
    requires Many(read, d, pos, n).Got? && k < n
    ensures read(d, at, k).Got? && read(d, at, k).value == Many(read, d, pos, n).value[k]
  {
    var front := Many(read, d, pos, n - 1);
    if k == n - 1 {
      at := front.next;
    } else {
      at := EntryRead(read, d, pos, n - 1, k);
    }
  }

  // ---- entries -----------------------------------------------------------

  predicate UniverseSound(u: Universe) {
    u.transport <= 3
  }

  ghost predicate ProfileSound(p: FixtureProfile.Profile) {
    FixtureProfile.Wellformed(p) && |p.channels| <= 24 && |p.ranges| <= 192
  }

  ghost predicate FixtureSound(f: PatchEntry) {
    f.universe < 8 && ProfileSound(f.profile)
  }

  predicate MatrixSound(m: MatrixMap) {
    m.startUniverse < 8
  }

  lemma {:induction false} UniversesSound(version: byte, d: seq<byte>, pos: nat, n: nat, us: seq<Universe>, end: nat)
    requires Many(Universes(version), d, pos, n) == Got(us, end)
    ensures |us| == n && forall k :: 0 <= k < n ==> UniverseSound(us[k])
  {
    forall k | 0 <= k < n ensures UniverseSound(us[k]) {
      var at := EntryRead(Universes(version), d, pos, n, k);
      assert UniverseAt(version, d, at, k).Got?;
    }
  }

  lemma {:induction false} ProfilesSound(d: seq<byte>, pos: nat, n: nat, ps: seq<FixtureProfile.Profile>, end: nat)
    requires Many(Profiles(ShowLoader.Codecs()), d, pos, n) == Got(ps, end)
    ensures |ps| == n && forall k :: 0 <= k < n ==> ProfileSound(ps[k])
  {
    forall k | 0 <= k < n ensures ProfileSound(ps[k]) {
      var at := EntryRead(Profiles(ShowLoader.Codecs()), d, pos, n, k);
      assert ProfileAt(ShowLoader.Codecs(), d, at).Got?;
      ParsedProfileSound(d, at);
    }
  }

  lemma {:induction false} ParsedProfileSound(d: seq<byte>, at: nat)
    requires ProfileAt(ShowLoader.Codecs(), d, at).Got?
    ensures ProfileSound(ProfileAt(ShowLoader.Codecs(), d, at).value)
  {
    var blob := Blob(d, at).value;
    assert ShowLoader.ProfileParsed(blob).Some?;
    assert ProfileFormat.Accepted(blob);
  }

  lemma {:induction false} FixturesSound(ps: seq<FixtureProfile.Profile>, d: seq<byte>, pos: nat, n: nat,
                                         fs: seq<PatchEntry>, end: nat)
    requires Many(Fixtures(ps), d, pos, n) == Got(fs, end)
    requires forall k :: 0 <= k < |ps| ==> ProfileSound(ps[k])
    ensures |fs| == n && forall k :: 0 <= k < n ==> FixtureSound(fs[k])
  {
    forall k | 0 <= k < n ensures FixtureSound(fs[k]) {
      var at := EntryRead(Fixtures(ps), d, pos, n, k);
      assert FixtureAt(ps, d, at).Got?;
      assert ProfileSound(ps[U16At(d, at)]);
    }
  }

  lemma {:induction false} MatricesSound(d: seq<byte>, pos: nat, n: nat, ms: seq<MatrixMap>, end: nat)
    requires Many(Matrices(), d, pos, n) == Got(ms, end)
    ensures |ms| == n && forall k :: 0 <= k < n ==> MatrixSound(ms[k])
  {
    forall k | 0 <= k < n ensures MatrixSound(ms[k]) {
      var at := EntryRead(Matrices(), d, pos, n, k);
      assert MatrixAt(d, at).Got?;
    }
  }

  lemma {:induction false} ControllersSound(d: seq<byte>, pos: nat, n: nat, cs: seq<Mdef.Controller>, end: nat)
    requires Many(Controllers(ShowLoader.Codecs()), d, pos, n) == Got(cs, end)
    ensures |cs| == n && forall k :: 0 <= k < n ==> Mdef.Wellformed(cs[k])
  {
    forall k | 0 <= k < n ensures Mdef.Wellformed(cs[k]) {
      var at := EntryRead(Controllers(ShowLoader.Codecs()), d, pos, n, k);
      assert ControllerAt(ShowLoader.Codecs(), d, at).Got?;
      var blob := Blob(d, at).value;
      assert ShowLoader.ControllerParsed(blob).Some?;
      assert ControllerFormat.Accepted(blob);
    }
  }

  // ---- shows -------------------------------------------------------------

  /** The header's counts, little-endian. */
  predicate CountsMatch(d: seq<byte>, show: LoadedShow) {
    |d| >= 12 && d[..4] == [0x53, 0x48, 0x57, 0x31] && 1 <= d[4] <= 4 &&
    |show.universes| == d[5] as int <= 8 &&
    |show.fixtures| == d[8] as int + 256 * (d[9] as int) && |show.matrices| == d[10] as int + 256 * (d[11] as int) &&
    (if d[4] >= 2 then |d| >= 14 && |show.controllers| == d[12] as int + 256 * (d[13] as int)
     else show.controllers == []) &&
    (if d[4] >= 3 then |d| >= 16 && |show.wledTargets| == d[14] as int + 256 * (d[15] as int)
     else show.wledTargets == [])
  }

  ghost predicate Sound(show: LoadedShow) {
    (forall k :: 0 <= k < |show.universes| ==> UniverseSound(show.universes[k])) &&
    (forall k :: 0 <= k < |show.fixtures| ==> FixtureSound(show.fixtures[k])) &&
    (forall k :: 0 <= k < |show.matrices| ==> MatrixSound(show.matrices[k])) &&
    (forall k :: 0 <= k < |show.controllers| ==> Mdef.Wellformed(show.controllers[k]))
  }

  lemma {:induction false} FrontSound(c: Counts, d: seq<byte>)
    requires Front(ShowLoader.Codecs(), c, d).Got?
    ensures var front := Front(ShowLoader.Codecs(), c, d).value;
            |front.0| == c.universes as int && |front.1| == c.fixtures as int &&
            (forall k :: 0 <= k < |front.0| ==> UniverseSound(front.0[k])) &&
            forall k :: 0 <= k < |front.1| ==> FixtureSound(front.1[k])
  {
    var us := Many(Universes(c.version), d, HeaderSize(c.version), c.universes);
    UniversesSound(c.version, d, HeaderSize(c.version), c.universes as int, us.value, us.next);
    var ps := Many(Profiles(ShowLoader.Codecs()), d, us.next, c.profiles);
    ProfilesSound(d, us.next, c.profiles as int, ps.value, ps.next);
    var fs := Many(Fixtures(ps.value), d, ps.next, c.fixtures);
    FixturesSound(ps.value, d, ps.next, c.fixtures as int, fs.value, fs.next);
  }

  lemma {:induction false} BackSound(c: Counts, d: seq<byte>, pos: nat)
    requires Back(ShowLoader.Codecs(), c, d, pos).Got?
    ensures var back := Back(ShowLoader.Codecs(), c, d, pos).value;
            |back.0| == c.matrices as int && |back.1| == c.controllers as int && |back.2| == c.wled as int &&
            (forall k :: 0 <= k < |back.0| ==> MatrixSound(back.0[k])) &&
            forall k :: 0 <= k < |back.1| ==> Mdef.Wellformed(back.1[k])
  {
    var ms := Many(Matrices(), d, pos, c.matrices);
    MatricesSound(d, pos, c.matrices as int, ms.value, ms.next);
    var cs := Many(Controllers(ShowLoader.Codecs()), d, ms.next, c.controllers);
    ControllersSound(d, ms.next, c.controllers as int, cs.value, cs.next);
  }

  /** Whatever byte string loads, the show has as many of everything as its header
      says, at most eight universes of known transports, no fixture or matrix outside
      them, and only well-formed profiles and controllers. */
  lemma {:induction false} LoadedIsSound(d: seq<byte>, show: LoadedShow, end: nat)
    requires Load(ShowLoader.Codecs(), d) == Got(show, end)
    ensures CountsMatch(d, show) && Sound(show)
  {
    var c := CountsIn(d);
    FrontSound(c, d);
    BackSound(c, d, Front(ShowLoader.Codecs(), c, d).next);
  }
}
