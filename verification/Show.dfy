/** The Show object of show.cpp: patched fixtures, universe modes and the shared
    DMX buffers that a frame rewrites in place. */
module Show {
  import opened Bytes
  import opened FixtureProfile
  import opened Blend
  import opened ShowControl
  import opened Render

  lemma {:induction false} AppliedAppend(buf: seq<byte>, base: nat, a: seq<Write>, b: seq<Write>)
    ensures Applied(buf, base, a + b) == Applied(Applied(buf, base, a), base, b)
  {
    if b == [] {
      assert a + b == a;
    } else {
      AppliedAppend(buf, base, a, b[..|b| - 1]);
      assert (a + b)[..|a + b| - 1] == a + b[..|b| - 1];
    }
  }

  lemma {:induction false} SteppedAppend(mem: seq<seq<byte>>, a: seq<Step>, b: seq<Step>)
    ensures Stepped(mem, a + b) == Stepped(Stepped(mem, a), b)
  {
    if b == [] {
      assert a + b == a;
    } else {
      SteppedAppend(mem, a, b[..|b| - 1]);
      assert (a + b)[..|a + b| - 1] == a + b[..|b| - 1];
    }
  }

  lemma SteppedOne(mem: seq<seq<byte>>, s: Step)
    requires s.universe < |mem|
    ensures Stepped(mem, [s]) == mem[s.universe := Applied(mem[s.universe], s.base, s.ws)]
  {
    assert [s][..0] == [];
  }

  class Show {
    var universeCount: nat
    var modes: seq<Mode>
    const buffers: seq<array<byte>>
    var fixtures: seq<Fixture>
    var nextFixtureId: nat
    var effects: seq<nat>

    ghost predicate Valid()
      reads this
    {
      universeCount <= MAX_UNIVERSES && |modes| == MAX_UNIVERSES && |buffers| == MAX_UNIVERSES &&
      (forall u :: 0 <= u < |buffers| ==> buffers[u].Length == UNIVERSE_SIZE) &&
      (forall u, v :: 0 <= u < v < |buffers| ==> buffers[u] != buffers[v]) &&
      nextFixtureId == |fixtures| <= MAX_FIXTURES &&
      (forall i :: 0 <= i < |fixtures| ==> fixtures[i].id == i)
    }

    ghost function Mem(): (m: seq<seq<byte>>)
      reads this, buffers
      ensures |m| == |buffers|
    {
      seq(|buffers|, u requires 0 <= u < |buffers| reads buffers => buffers[u][..])
    }

    function TheRig(): Rig
      reads this
    {
      Rig(universeCount, modes)
    }

    constructor ()
      ensures Valid() && fixtures == [] && fresh(buffers)
      ensures forall u :: 0 <= u < |Mem()| ==> Mem()[u] == Zeroed(UNIVERSE_SIZE)
    {
      var bufs := AllocateBuffers(MAX_UNIVERSES, UNIVERSE_SIZE);
      buffers := bufs;
      modes := seq(MAX_UNIVERSES, _ => FixtureMode);
      universeCount, fixtures, nextFixtureId, effects := 0, [], 0, [];
    }

    method SetUniverseCount(n: nat)
      requires Valid()
      modifies this`universeCount
      ensures Valid() && universeCount == if n > MAX_UNIVERSES then MAX_UNIVERSES else n
    {
      universeCount := if n > MAX_UNIVERSES then MAX_UNIVERSES else n;
    }

    method ConfigureUniverse(u: nat, mode: Mode)
      requires Valid()
      modifies this`modes
      ensures Valid() && modes == if u < MAX_UNIVERSES then old(modes)[u := mode] else old(modes)
    {
      if u >= MAX_UNIVERSES { return; }
      modes := modes[u := mode];
    }

    method Patch(p: Profile, universe: nat, base: nat, isHead: bool, head: Head) returns (id: nat)
      requires Valid()
      modifies this`fixtures, this`nextFixtureId
      ensures Valid()
      ensures if old(|fixtures|) >= MAX_FIXTURES then id == NO_FIXTURE && fixtures == old(fixtures)
              else id == old(|fixtures|) && fixtures == old(fixtures) + [Fixture(id, p, universe, base, isHead, head)]
    {
      if |fixtures| >= MAX_FIXTURES { return NO_FIXTURE; }
      id := nextFixtureId;
      nextFixtureId := nextFixtureId + 1;
      fixtures := fixtures + [Fixture(id, p, universe, base, isHead, head)];
    }

    method FindFixture(id: nat) returns (i: nat)
      ensures i == Find(fixtures, id)
    {
      i := 0;
      while i < |fixtures|
        invariant i <= |fixtures|
        invariant forall j :: 0 <= j < i ==> fixtures[j].id != id
      {
        if fixtures[i].id == id { return; }
        i := i + 1;
      }
    }

    /** Blits raw data into a raw universe, cut to the universe's size. */
    method WriteRawUniverse(u: nat, data: seq<byte>)
      requires Valid()
      modifies buffers
      ensures u >= MAX_UNIVERSES || modes[u] != RawMode ==> Mem() == old(Mem())
      ensures u < MAX_UNIVERSES && modes[u] == RawMode ==>
                var n := if |data| < UNIVERSE_SIZE then |data| else UNIVERSE_SIZE;
                Mem() == old(Mem())[u := data[..n] + old(Mem())[u][n..]]
    {
      if u >= MAX_UNIVERSES || modes[u] != RawMode { return; }
      var n := if |data| < UNIVERSE_SIZE then |data| else UNIVERSE_SIZE;
      ghost var before := Mem();
      var buf := buffers[u];
      for i := 0 to n
        modifies buf
        invariant forall j :: 0 <= j < UNIVERSE_SIZE ==> buf[j] == if j < i then data[j] else before[u][j]
        invariant forall v :: 0 <= v < |buffers| && v != u ==> buffers[v][..] == before[v]
      {
        buf[i] := data[i];
      }
      assert buf[..] == data[..n] + before[u][n..];
      assert Mem() == before[u := data[..n] + before[u][n..]];
    }

    method Zero(u: nat)
      requires Valid() && u < |buffers|
      modifies buffers[u]
      ensures Mem() == old(Mem())[u := Zeroed(UNIVERSE_SIZE)]
    {
      ghost var before := Mem();
      var buf := buffers[u];
      for i := 0 to UNIVERSE_SIZE
        modifies buf
        invariant forall j :: 0 <= j < i ==> buf[j] == 0
        invariant forall v :: 0 <= v < |buffers| && v != u ==> buffers[v][..] == before[v]
      {
        buf[i] := 0;
      }
      assert buf[..] == Zeroed(UNIVERSE_SIZE);
      assert Mem() == before[u := Zeroed(UNIVERSE_SIZE)];
    }

    method ResetUniverses()
      requires Valid()
      modifies buffers
      ensures Mem() == Reset(TheRig(), old(Mem()))
    {
      ghost var before := Mem();
      for u := 0 to universeCount
        invariant forall v :: 0 <= v < |buffers| ==>
                    Mem()[v] == if v < u && modes[v] == FixtureMode then Zeroed(UNIVERSE_SIZE) else before[v]
      {
        if modes[u] == FixtureMode { Zero(u); }
      }
    }

    method StepDefaults(f: Fixture)
      requires Valid() && Patchable(f)
      modifies buffers
      ensures Mem() == Stepped(old(Mem()), DefaultStep(TheRig(), f))
    {
      if f.universe >= universeCount || modes[f.universe] != FixtureMode { return; }
      ghost var before := Mem();
      ApplyDefaults(f.profile, buffers[f.universe], f.base);
      SteppedOne(before, Step(f.id, f.universe, f.base, DefaultWrites(f.profile.channels)));
      assert Mem() == before[f.universe := Applied(before[f.universe], f.base, DefaultWrites(f.profile.channels))];
    }

    method StepAim(ai: AimIntent, aiming: Aiming)
      requires Valid() && AllPatchable(fixtures)
      modifies buffers
      ensures Mem() == Stepped(old(Mem()), AimStep(TheRig(), fixtures, ai, aiming))
    {
      var i := FindFixture(ai.fixtureId);
      if i == |fixtures| || !fixtures[i].isHead { return; }
      var f := fixtures[i];
      if f.universe >= universeCount || modes[f.universe] != FixtureMode { return; }
      assert Patchable(f);
      ghost var before := Mem();
      var r := aiming(f.head, ai);
      var buf := buffers[f.universe];
      ApplyCapability(f.profile, PAN, r.0, buf, f.base);
      ApplyCapability(f.profile, TILT, r.1, buf, f.base);
      AppliedAppend(before[f.universe], f.base, CapWrites(f.profile, PAN, r.0), CapWrites(f.profile, TILT, r.1));
      SteppedOne(before, Step(f.id, f.universe, f.base, AimWrites(f, r)));
      assert Mem() == before[f.universe := Applied(before[f.universe], f.base, AimWrites(f, r))];
    }

    method StepCap(ci: CapIntent)
      requires Valid() && AllPatchable(fixtures)
      modifies buffers
      ensures Mem() == Stepped(old(Mem()), CapStep(TheRig(), fixtures, ci))
    {
      var i := FindFixture(ci.fixtureId);
      if i == |fixtures| { return; }
      var f := fixtures[i];
      if f.universe >= universeCount || modes[f.universe] != FixtureMode { return; }
      assert Patchable(f);
      ghost var before := Mem();
      var buf := buffers[f.universe];
      if ci.sel.hasName {
        var _ := ApplyRangeByName(f.profile, ci.cap, ci.sel.rangeName, ci.norm01, buf, f.base);
      } else if ci.sel.rangeIndex >= 0 {
        var _ := ApplyRangeByIndex(f.profile, ci.cap, ci.sel.rangeIndex % 256, ci.norm01, buf, f.base);
      } else {
        ApplyCapability(f.profile, ci.cap, ci.norm01, buf, f.base);
      }
      SteppedOne(before, Step(f.id, f.universe, f.base, IntentWrites(f.profile, ci)));
      assert Mem() == before[f.universe := Applied(before[f.universe], f.base, IntentWrites(f.profile, ci))];
    }

    method ApplyAllDefaults()
      requires Valid() && AllPatchable(fixtures)
      modifies buffers
      ensures Mem() == Stepped(old(Mem()), DefaultSteps(TheRig(), fixtures))
    {
      ghost var start, rig := Mem(), TheRig();
      for i := 0 to |fixtures|
        invariant Mem() == Stepped(start, DefaultSteps(rig, fixtures[..i]))
      {
        DefaultStepsNext(rig, fixtures, i);
        SteppedAppend(start, DefaultSteps(rig, fixtures[..i]), DefaultStep(rig, fixtures[i]));
        assert Patchable(fixtures[i]);
        StepDefaults(fixtures[i]);
      }
      assert fixtures[..|fixtures|] == fixtures;
    }

    method ResolveAims(aims: seq<AimIntent>, aiming: Aiming)
      requires Valid() && AllPatchable(fixtures)
      modifies buffers
      ensures Mem() == Stepped(old(Mem()), AimSteps(TheRig(), fixtures, aims, aiming))
    {
      ghost var start, rig := Mem(), TheRig();
      for i := 0 to |aims|
        invariant Mem() == Stepped(start, AimSteps(rig, fixtures, aims[..i], aiming))
      {
        AimStepsNext(rig, fixtures, aims, aiming, i);
        SteppedAppend(start, AimSteps(rig, fixtures, aims[..i], aiming), AimStep(rig, fixtures, aims[i], aiming));
        StepAim(aims[i], aiming);
      }
      assert aims[..|aims|] == aims;
    }

    method ResolveCaps(caps: seq<CapIntent>)
      requires Valid() && AllPatchable(fixtures)
      modifies buffers
      ensures Mem() == Stepped(old(Mem()), CapSteps(TheRig(), fixtures, caps))
    {
      ghost var start, rig := Mem(), TheRig();
      for i := 0 to |caps|
        invariant Mem() == Stepped(start, CapSteps(rig, fixtures, caps[..i]))
      {
        CapStepsNext(rig, fixtures, caps, i);
        SteppedAppend(start, CapSteps(rig, fixtures, caps[..i]), CapStep(rig, fixtures, caps[i]));
        StepCap(caps[i]);
      }
      assert caps[..|caps|] == caps;
    }

    /** One frame: exactly the buffers of Frame, for the intents of the effects. */
    method RenderCompute(t: real, fx: Effects, aiming: Aiming)
      requires Valid() && AllPatchable(fixtures)
      modifies buffers
      ensures Valid()
      ensures Mem() == Frame(TheRig(), fixtures, old(Mem()), Gather(effects, t, fx), aiming)
    {
      ResetUniverses();
      ghost var start, rig := Mem(), TheRig();
      ApplyAllDefaults();
      var o := Gather(effects, t, fx);
      ResolveAims(o.aims, aiming);
      ResolveCaps(o.caps);
      SteppedAppend(start, DefaultSteps(rig, fixtures), AimSteps(rig, fixtures, o.aims, aiming));
      SteppedAppend(start, DefaultSteps(rig, fixtures) + AimSteps(rig, fixtures, o.aims, aiming),
                    CapSteps(rig, fixtures, o.caps));
    }
  }
}
