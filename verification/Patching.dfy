/** From the compiler's address check to the frame: what applyLoadedShow
    (apply_loaded_show.cpp) patches when the check reported nothing. */
module Patching {
  import opened Bytes
  import opened Reading
  import opened ShowFormat
  import opened ShowBundle
  import opened ShowCompiler
  import Collisions
  import ProfileFormat
  import ControllerFormat
  import FixtureProfile
  import ShowLoader
  import ShowRoundTrip
  import Render

  /** A fixture as the address check sees it: addresses from 1, and the channels its
      definition file says it takes. */
  function ItemOf(fi: FixtureInstance, builder: ProfileFormat.Builder): Collisions.Item {
    Collisions.Fixture(fi.universe, fi.base as int + 1, builder.footprint as int)
  }

  predicate IsItem(p: Patch, builders: map<Name, ProfileFormat.Builder>, i: nat, t: Collisions.Item)
    requires i < |p.fixtures|
  {
    p.fixtures[i].defFile in builders && t == ItemOf(p.fixtures[i], builders[p.fixtures[i].defFile])
  }

  /** Fixture `i` is item `at[i]`, in the order of the file; matrices are among them. */
  predicate Itemised(p: Patch, builders: map<Name, ProfileFormat.Builder>, items: seq<Collisions.Item>, at: seq<nat>) {
    |at| == |p.fixtures| &&
    (forall i :: 0 <= i < |at| ==> at[i] < |items| && IsItem(p, builders, i, items[at[i]])) &&
    (forall i, j :: 0 <= i < j < |at| ==> at[i] < at[j])
  }

  /** The fixtures of a loaded show, numbered as they are patched. */
  function Patched(entries: seq<PatchEntry>, head: PatchEntry -> Render.Head): (fs: seq<Render.Fixture>)
    ensures |fs| == |entries|
  {
    seq(|entries|, i requires 0 <= i < |entries| =>
      Render.Fixture(i, entries[i].profile, entries[i].universe, entries[i].base, entries[i].head.Some?, head(entries[i])))
  }

  /** Patching keeps each entry's profile and place. */
  predicate Keeps(fs: seq<Render.Fixture>, entries: seq<PatchEntry>) {
    |fs| == |entries| &&
    forall i :: 0 <= i < |fs| ==>
      fs[i].profile == entries[i].profile && fs[i].universe == entries[i].universe as int &&
      fs[i].base == entries[i].base as int
  }

  lemma PatchedKeeps(entries: seq<PatchEntry>, fs: seq<Render.Fixture>, head: PatchEntry -> Render.Head)
    requires fs == Patched(entries, head)
    ensures Keeps(fs, entries) && Render.DistinctIds(fs)
  {
  }

  /** Two items that drive no common channel do not overlap. */
  lemma ApartItems(s: Collisions.Item, t: Collisions.Item)
    requires Collisions.ItemOk(s) && Collisions.ItemOk(t) && s.Fixture? && t.Fixture?
    requires forall g :: !(Collisions.Drives(s, g) && Collisions.Drives(t, g))
    ensures s.universe != t.universe || s.base + s.footprint <= t.base || t.base + t.footprint <= s.base
  {
    var g := if Collisions.First(s) < Collisions.First(t) then Collisions.First(t) else Collisions.First(s);
    assert !(Collisions.Drives(s, g) && Collisions.Drives(t, g));
  }

  ghost predicate NothingShared(items: seq<Collisions.Item>)
    requires Collisions.ItemsOk(items)
  {
    forall i, j, g :: !Collisions.Shared(items, i, j, g)
  }

  /** What a patched fixture keeps of its item. */
  ghost predicate Carries(f: Render.Fixture, t: Collisions.Item) {
    t.Fixture? && f.universe == t.universe as int && f.base + 1 == t.base && f.profile.footprint as int == t.footprint &&
    FixtureProfile.Wellformed(f.profile)
  }

  lemma SoundFixtures(fs: seq<Render.Fixture>, items: seq<Collisions.Item>, at: seq<nat>)
    requires Collisions.ItemsOk(items) && NothingShared(items) && |at| == |fs|
    requires forall i :: 0 <= i < |at| ==> at[i] < |items| && Carries(fs[i], items[at[i]])
    requires forall i, j :: 0 <= i < j < |at| ==> at[i] < at[j]
    ensures Render.AllPatchable(fs) && Render.DisjointFootprints(fs)
  {
    forall i | 0 <= i < |fs| ensures Render.Patchable(fs[i]) {
      assert Carries(fs[i], items[at[i]]) && Collisions.ItemOk(items[at[i]]);
    }
    forall i, j | 0 <= i < j < |fs| ensures Render.Apart(fs[i], fs[j]) {
      var s, t := items[at[i]], items[at[j]];
      assert Carries(fs[i], s) && Carries(fs[j], t) && Collisions.ItemOk(s) && Collisions.ItemOk(t);
      forall g ensures !(Collisions.Drives(s, g) && Collisions.Drives(t, g)) {
        assert !Collisions.Shared(items, at[i], at[j], g);
      }
      ApartItems(s, t);
    }
  }

  lemma BuilderWellformed(b: ProfileFormat.Builder)
    requires ProfileFormat.WithinLimits(b)
    ensures FixtureProfile.Wellformed(ProfileFormat.Described(b)) && ProfileFormat.Described(b).footprint == b.footprint
  {
    ProfileFormat.DescribedWellformed(b);
  }

  lemma DescribedAt(ps: Parsers, p: KnownPatch, i: nat)
    requires ProfilesParse(ps, p) && i < |p.fixtures|
    ensures DescribedFixtures(ps, p)[i].universe == p.fixtures[i].universe
    ensures DescribedFixtures(ps, p)[i].base == p.fixtures[i].base
  {
    ProfileOfFixture(ps, p, i);
    var profile := ps.profile(OwnProfile(p, i)).value;
    assert DescribedFixtures(ps, p)[i] == FixtureWith(profile, p.fixtures[i], p.defs[p.fixtures[i].defFile]);
  }

  /** Loaded fixture `i` is what the patch says, with its own definition's profile. */
  lemma LoadedFixture(p: FittingPatch, builders: map<Name, ProfileFormat.Builder>, entries: seq<PatchEntry>, i: nat)
    requires BuiltFrom(p, builders) && BuildersOk(builders) && i < |p.fixtures|
    requires ProfilesParse(ShowLoader.Codecs(), p) && entries == DescribedFixtures(ShowLoader.Codecs(), p)
    requires p.fixtures[i].defFile in builders
    ensures entries[i].universe == p.fixtures[i].universe && entries[i].base == p.fixtures[i].base
    ensures entries[i].profile == ProfileFormat.Described(builders[p.fixtures[i].defFile])
  {
    DescribedAt(ShowLoader.Codecs(), p, i);
    OwnProfiles(p, builders);
  }

  /** A show whose address check reports no collision loads with fixtures that fit
      their universes and keep off each other's channels: so, by
      `Render.FixturesDoNotInterfere`, each renders as if it were alone. */
  lemma CheckedShowRenders(p: FittingPatch, builders: map<Name, ProfileFormat.Builder>,
                           controllers: seq<ControllerFormat.Builder>, items: seq<Collisions.Item>, at: seq<nat>,
                           show: LoadedShow, end: nat, head: PatchEntry -> Render.Head)
    requires BuiltFrom(p, builders) && BuildersOk(builders) && ControllersBuilt(p, controllers)
    requires Collisions.ItemsOk(items) && NothingShared(items) && Itemised(p, builders, items, at)
    requires Load(ShowLoader.Codecs(), Encoded(p)) == Got(show, end)
    ensures var fs := Patched(show.fixtures, head);
            |fs| == |p.fixtures| && Render.AllPatchable(fs) && Render.DistinctIds(fs) && Render.DisjointFootprints(fs)
  {
    LoadedFixtures(p, builders, controllers, show, end);
    PatchedKeeps(show.fixtures, Patched(show.fixtures, head), head);
    CheckedFixtures(p, builders, items, at, show.fixtures, Patched(show.fixtures, head));
  }

  lemma LoadedFixtures(p: FittingPatch, builders: map<Name, ProfileFormat.Builder>,
                       controllers: seq<ControllerFormat.Builder>, show: LoadedShow, end: nat)
    requires BuiltFrom(p, builders) && BuildersOk(builders) && ControllersBuilt(p, controllers)
    requires Load(ShowLoader.Codecs(), Encoded(p)) == Got(show, end)
    ensures ProfilesParse(ShowLoader.Codecs(), p) && show.fixtures == DescribedFixtures(ShowLoader.Codecs(), p)
  {
    ProfilesFit(p, builders);
    ControllersFit(p, controllers);
    ShowRoundTrip.RoundTrip(ShowLoader.Codecs(), p);
  }

  lemma CheckedFixtures(p: FittingPatch, builders: map<Name, ProfileFormat.Builder>, items: seq<Collisions.Item>,
                        at: seq<nat>, entries: seq<PatchEntry>, fs: seq<Render.Fixture>)
    requires BuiltFrom(p, builders) && BuildersOk(builders) && ProfilesParse(ShowLoader.Codecs(), p)
    requires Collisions.ItemsOk(items) && NothingShared(items) && Itemised(p, builders, items, at)
    requires entries == DescribedFixtures(ShowLoader.Codecs(), p) && |fs| == |entries|
    requires Keeps(fs, entries)
    ensures Render.AllPatchable(fs) && Render.DisjointFootprints(fs)
  {
    forall i | 0 <= i < |at| ensures at[i] < |items| && Carries(fs[i], items[at[i]]) {
      assert IsItem(p, builders, i, items[at[i]]);
      LoadedFixture(p, builders, entries, i);
      BuilderWellformed(builders[p.fixtures[i].defFile]);
    }
    SoundFixtures(fs, items, at);
  }
}
