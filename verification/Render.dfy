/** The render pass of show.cpp: zero the fixture universes, apply every patched
    fixture's defaults, then every aim, then every capability intent, all into
    shared 512-byte buffers. */
module Render {
  import opened Bytes
  import opened FixtureProfile
  import opened Blend
  import opened ShowControl

  const UNIVERSE_SIZE: nat := 512
  const MAX_UNIVERSES: nat := 8
  const MAX_FIXTURES: nat := 128
  const NO_FIXTURE: nat := 0xFFFF

  datatype Mode = FixtureMode | RawMode

  /** A moving head's mounting, opaque here. */
  datatype Head = Head(config: seq<real>)

  datatype Fixture = Fixture(id: nat, profile: Profile, universe: nat, base: nat, isHead: bool, head: Head)

  /** aimAtPoint and aimDirection: pan and tilt for a head and a target. */
  type Aiming = (Head, AimIntent) -> (real, real)

  // ---- the pass as a list of steps ---------------------------------------

  /** A batch of writes on behalf of fixture `id`. */
  datatype Step = Step(id: nat, universe: nat, base: nat, ws: seq<Write>)

  datatype Rig = Rig(universeCount: nat, modes: seq<Mode>)

  predicate Rendered(rig: Rig, f: Fixture) {
    f.universe < rig.universeCount && f.universe < |rig.modes| && rig.modes[f.universe] == FixtureMode
  }

  function Find(fixtures: seq<Fixture>, id: nat): (i: nat)
    ensures i <= |fixtures|
    ensures i < |fixtures| ==> fixtures[i].id == id
    ensures forall j :: 0 <= j < i ==> fixtures[j].id != id
  {
    if fixtures == [] || fixtures[0].id == id then 0 else 1 + Find(fixtures[1..], id)
  }

  ghost predicate Patchable(f: Fixture) {
    Wellformed(f.profile) && f.base + f.profile.footprint <= UNIVERSE_SIZE
  }

  ghost predicate AllPatchable(fixtures: seq<Fixture>) {
    forall i :: 0 <= i < |fixtures| ==> Patchable(fixtures[i])
  }

  function DefaultStep(rig: Rig, f: Fixture): seq<Step> {
    if Rendered(rig, f) then [Step(f.id, f.universe, f.base, DefaultWrites(f.profile.channels))] else []
  }

  function DefaultSteps(rig: Rig, fixtures: seq<Fixture>): seq<Step> {
    if fixtures == [] then []
    else DefaultSteps(rig, fixtures[..|fixtures| - 1]) + DefaultStep(rig, fixtures[|fixtures| - 1])
  }

  function AimWrites(f: Fixture, aim: (real, real)): seq<Write> {
    CapWrites(f.profile, PAN, aim.0) + CapWrites(f.profile, TILT, aim.1)
  }

  function AimStep(rig: Rig, fixtures: seq<Fixture>, ai: AimIntent, aiming: Aiming): seq<Step> {
    var i := Find(fixtures, ai.fixtureId);
    if i == |fixtures| || !fixtures[i].isHead || !Rendered(rig, fixtures[i]) then []
    else
      var f := fixtures[i];
      [Step(f.id, f.universe, f.base, AimWrites(f, aiming(f.head, ai)))]
  }

  function AimSteps(rig: Rig, fixtures: seq<Fixture>, aims: seq<AimIntent>, aiming: Aiming): seq<Step> {
    if aims == [] then []
    else AimSteps(rig, fixtures, aims[..|aims| - 1], aiming) + AimStep(rig, fixtures, aims[|aims| - 1], aiming)
  }

  function IntentWrites(p: Profile, ci: CapIntent): seq<Write>
    requires Wellformed(p)
  {
    if ci.sel.hasName then NameWrites(p, ci.cap, ci.sel.rangeName, ci.norm01)
    else if ci.sel.rangeIndex >= 0 then IndexWrites(p, ci.cap, ci.sel.rangeIndex % 256, ci.norm01)
    else CapWrites(p, ci.cap, ci.norm01)
  }

  function CapStep(rig: Rig, fixtures: seq<Fixture>, ci: CapIntent): seq<Step>
    requires AllPatchable(fixtures)
  {
    var i := Find(fixtures, ci.fixtureId);
    if i == |fixtures| || !Rendered(rig, fixtures[i]) then []
    else
      var f := fixtures[i];
      assert Patchable(f);
      [Step(f.id, f.universe, f.base, IntentWrites(f.profile, ci))]
  }

  function CapSteps(rig: Rig, fixtures: seq<Fixture>, caps: seq<CapIntent>): seq<Step>
    requires AllPatchable(fixtures)
  {
    if caps == [] then []
    else CapSteps(rig, fixtures, caps[..|caps| - 1]) + CapStep(rig, fixtures, caps[|caps| - 1])
  }

  lemma DefaultStepsNext(rig: Rig, fixtures: seq<Fixture>, i: nat)
    requires i < |fixtures|
    ensures DefaultSteps(rig, fixtures[..i + 1]) == DefaultSteps(rig, fixtures[..i]) + DefaultStep(rig, fixtures[i])
  {
    assert fixtures[..i + 1][..i] == fixtures[..i];
  }

  lemma AimStepsNext(rig: Rig, fixtures: seq<Fixture>, aims: seq<AimIntent>, aiming: Aiming, i: nat)
    requires i < |aims|
    ensures AimSteps(rig, fixtures, aims[..i + 1], aiming)
            == AimSteps(rig, fixtures, aims[..i], aiming) + AimStep(rig, fixtures, aims[i], aiming)
  {
    assert aims[..i + 1][..i] == aims[..i];
  }

  lemma CapStepsNext(rig: Rig, fixtures: seq<Fixture>, caps: seq<CapIntent>, i: nat)
    requires AllPatchable(fixtures) && i < |caps|
    ensures CapSteps(rig, fixtures, caps[..i + 1]) == CapSteps(rig, fixtures, caps[..i]) + CapStep(rig, fixtures, caps[i])
  {
    assert caps[..i + 1][..i] == caps[..i];
  }

  function AllSteps(rig: Rig, fixtures: seq<Fixture>, o: Output, aiming: Aiming): seq<Step>
    requires AllPatchable(fixtures)
  {
    DefaultSteps(rig, fixtures) + AimSteps(rig, fixtures, o.aims, aiming) + CapSteps(rig, fixtures, o.caps)
  }

  /** The buffers after a list of steps. */
  function Stepped(mem: seq<seq<byte>>, steps: seq<Step>): (r: seq<seq<byte>>)
    ensures |r| == |mem| && forall u :: 0 <= u < |mem| ==> |r[u]| == |mem[u]|
  {
    if steps == [] then mem
    else
      var m := Stepped(mem, steps[..|steps| - 1]);
      var s := steps[|steps| - 1];
      if s.universe < |m| then m[s.universe := Applied(m[s.universe], s.base, s.ws)] else m
  }

  function Zeroed(n: nat): (r: seq<byte>)
    ensures |r| == n
  {
    seq(n, _ => 0)
  }

  function Reset(rig: Rig, mem: seq<seq<byte>>): (r: seq<seq<byte>>)
    requires |mem| == |rig.modes|
    ensures |r| == |mem|
  {
    seq(|mem|, u requires 0 <= u < |mem| =>
      if u < rig.universeCount && rig.modes[u] == FixtureMode then Zeroed(|mem[u]|) else mem[u])
  }

  function Frame(rig: Rig, fixtures: seq<Fixture>, mem: seq<seq<byte>>, o: Output, aiming: Aiming): seq<seq<byte>>
    requires AllPatchable(fixtures) && |mem| == |rig.modes|
  {
    Stepped(Reset(rig, mem), AllSteps(rig, fixtures, o, aiming))
  }

  // ---- which cells a step touches ----------------------------------------

  predicate Touches(s: Step, u: nat, a: nat) {
    s.universe == u && exists i :: 0 <= i < |s.ws| && s.base + s.ws[i].offset == a
  }

  predicate Untouched(steps: seq<Step>, u: nat, a: nat) {
    forall i :: 0 <= i < |steps| ==> !Touches(steps[i], u, a)
  }

  /** What writes and steps do to a single cell. */
  function WrittenTo(v: byte, base: nat, ws: seq<Write>, a: nat): byte {
    if ws == [] then v
    else if base + ws[|ws| - 1].offset == a then ws[|ws| - 1].value
    else WrittenTo(v, base, ws[..|ws| - 1], a)
  }

  function SteppedTo(v: byte, steps: seq<Step>, u: nat, a: nat): byte {
    if steps == [] then v
    else
      var w := SteppedTo(v, steps[..|steps| - 1], u, a);
      var s := steps[|steps| - 1];
      if s.universe == u then WrittenTo(w, s.base, s.ws, a) else w
  }

  lemma {:induction false} AppliedCell(buf: seq<byte>, base: nat, ws: seq<Write>, a: nat)
    requires a < |buf|
    ensures Applied(buf, base, ws)[a] == WrittenTo(buf[a], base, ws, a)
  {
    if ws == [] {
    } else {
      AppliedCell(buf, base, ws[..|ws| - 1], a);
    }
  }

  lemma {:induction false} SteppedCell(mem: seq<seq<byte>>, steps: seq<Step>, u: nat, a: nat)
    requires u < |mem| && a < |mem[u]|
    ensures Stepped(mem, steps)[u][a] == SteppedTo(mem[u][a], steps, u, a)
  {
    if steps == [] {
    } else {
      var front, s := steps[..|steps| - 1], steps[|steps| - 1];
      SteppedCell(mem, front, u, a);
      if s.universe == u { AppliedCell(Stepped(mem, front)[u], s.base, s.ws, a); }
    }
  }

  lemma {:induction false} NotWrittenTo(v: byte, base: nat, ws: seq<Write>, a: nat)
    requires forall i :: 0 <= i < |ws| ==> base + ws[i].offset != a
    ensures WrittenTo(v, base, ws, a) == v
  {
    if ws == [] {
    } else {
      NotWrittenTo(v, base, ws[..|ws| - 1], a);
    }
  }

  lemma UntouchedByStep(v: byte, s: Step, u: nat, a: nat)
    requires !Touches(s, u, a)
    ensures s.universe == u ==> WrittenTo(v, s.base, s.ws, a) == v
  {
    if s.universe == u { NotWrittenTo(v, s.base, s.ws, a); }
  }

  lemma {:induction false} UntouchedStays(v: byte, steps: seq<Step>, u: nat, a: nat)
    requires Untouched(steps, u, a)
    ensures SteppedTo(v, steps, u, a) == v
  {
    if steps == [] {
    } else {
      UntouchedStays(v, steps[..|steps| - 1], u, a);
      UntouchedByStep(v, steps[|steps| - 1], u, a);
    }
  }

  function Own(steps: seq<Step>, id: nat): seq<Step> {
    if steps == [] then []
    else if steps[|steps| - 1].id == id then Own(steps[..|steps| - 1], id) + [steps[|steps| - 1]]
    else Own(steps[..|steps| - 1], id)
  }

  lemma {:induction false} OwnAppend(x: seq<Step>, y: seq<Step>, id: nat)
    ensures Own(x + y, id) == Own(x, id) + Own(y, id)
  {
    if y == [] {
      assert x + y == x;
    } else {
      OwnAppend(x, y[..|y| - 1], id);
      assert (x + y)[..|x + y| - 1] == x + y[..|y| - 1];
    }
  }

  /** A cell that only `id`'s steps touch ends up as if nothing else had run. */
  lemma {:induction false} OnlyOwnStepsMatter(v: byte, steps: seq<Step>, id: nat, u: nat, a: nat)
    requires forall i :: 0 <= i < |steps| && steps[i].id != id ==> !Touches(steps[i], u, a)
    ensures SteppedTo(v, steps, u, a) == SteppedTo(v, Own(steps, id), u, a)
  {
    if steps == [] {
    } else {
      var front, s := steps[..|steps| - 1], steps[|steps| - 1];
      OnlyOwnStepsMatter(v, front, id, u, a);
      if s.id == id {
        assert Own(steps, id)[..|Own(steps, id)| - 1] == Own(front, id);
      } else {
        UntouchedByStep(SteppedTo(v, front, u, a), s, u, a);
      }
    }
  }

  // ---- steps stay in footprints ------------------------------------------

  predicate InFootprint(f: Fixture, u: nat, a: nat) {
    f.universe == u && f.base <= a < f.base + f.profile.footprint
  }

  /** The step belongs to a rendered fixture of that id and writes only inside its
      footprint. */
  ghost predicate Belongs(rig: Rig, fixtures: seq<Fixture>, s: Step) {
    exists i :: 0 <= i < |fixtures| && StepOf(rig, fixtures[i], s)
  }

  predicate StepOf(rig: Rig, f: Fixture, s: Step) {
    s.id == f.id && Rendered(rig, f) && s.universe == f.universe && s.base == f.base &&
    Within(s.ws, f.profile.footprint)
  }

  lemma {:induction false} DefaultStepsBelong(rig: Rig, fixtures: seq<Fixture>)
    requires AllPatchable(fixtures)
    ensures forall s :: s in DefaultSteps(rig, fixtures) ==> Belongs(rig, fixtures, s)
  {
    if fixtures == [] {
    } else {
      var front, f := fixtures[..|fixtures| - 1], fixtures[|fixtures| - 1];
      DefaultStepsBelong(rig, front);
      assert Patchable(f);
      DefaultsWithin(f.profile.channels, f.profile.footprint);
      forall s | s in DefaultSteps(rig, fixtures) ensures Belongs(rig, fixtures, s) {
        if s in DefaultSteps(rig, front) {
          var i :| 0 <= i < |front| && StepOf(rig, front[i], s);
          assert StepOf(rig, fixtures[i], s);
        } else {
          assert StepOf(rig, fixtures[|fixtures| - 1], s);
        }
      }
    }
  }

  lemma {:induction false} AimStepsBelong(rig: Rig, fixtures: seq<Fixture>, aims: seq<AimIntent>, aiming: Aiming)
    requires AllPatchable(fixtures)
    ensures forall s :: s in AimSteps(rig, fixtures, aims, aiming) ==> Belongs(rig, fixtures, s)
  {
    if aims == [] {
    } else {
      var ai := aims[|aims| - 1];
      AimStepsBelong(rig, fixtures, aims[..|aims| - 1], aiming);
      var i := Find(fixtures, ai.fixtureId);
      if i < |fixtures| {
        var f := fixtures[i];
        assert Patchable(f);
        CapWithin(f.profile, PAN, aiming(f.head, ai).0);
        CapWithin(f.profile, TILT, aiming(f.head, ai).1);
        var s := Step(f.id, f.universe, f.base, AimWrites(f, aiming(f.head, ai)));
        assert Rendered(rig, f) ==> StepOf(rig, fixtures[i], s);
      }
    }
  }

  lemma IntentWithin(p: Profile, ci: CapIntent)
    requires Wellformed(p)
    ensures Within(IntentWrites(p, ci), p.footprint)
  {
    CapWithin(p, ci.cap, ci.norm01);
    RangesWithin(p, ci.cap, ci.sel.rangeName, ci.sel.rangeIndex % 256, ci.norm01);
  }

  lemma {:induction false} CapStepsBelong(rig: Rig, fixtures: seq<Fixture>, caps: seq<CapIntent>)
    requires AllPatchable(fixtures)
    ensures forall s :: s in CapSteps(rig, fixtures, caps) ==> Belongs(rig, fixtures, s)
  {
    if caps == [] {
    } else {
      var ci := caps[|caps| - 1];
      CapStepsBelong(rig, fixtures, caps[..|caps| - 1]);
      var i := Find(fixtures, ci.fixtureId);
      if i < |fixtures| {
        var f := fixtures[i];
        assert Patchable(f);
        IntentWithin(f.profile, ci);
        var s := Step(f.id, f.universe, f.base, IntentWrites(f.profile, ci));
        assert Rendered(rig, f) ==> StepOf(rig, fixtures[i], s);
      }
    }
  }

  // ---- a fixture on its own ----------------------------------------------

  predicate DistinctIds(fixtures: seq<Fixture>) {
    forall i, j :: 0 <= i < j < |fixtures| ==> fixtures[i].id != fixtures[j].id
  }

  predicate DisjointFootprints(fixtures: seq<Fixture>) {
    forall i, j :: 0 <= i < j < |fixtures| ==> Apart(fixtures[i], fixtures[j])
  }

  predicate Apart(f: Fixture, g: Fixture) {
    f.universe != g.universe || f.base + f.profile.footprint <= g.base || g.base + g.profile.footprint <= f.base
  }

  function AimsTo(aims: seq<AimIntent>, id: nat): seq<AimIntent> {
    if aims == [] then []
    else if aims[|aims| - 1].fixtureId == id then AimsTo(aims[..|aims| - 1], id) + [aims[|aims| - 1]]
    else AimsTo(aims[..|aims| - 1], id)
  }

  function CapsTo(caps: seq<CapIntent>, id: nat): seq<CapIntent> {
    if caps == [] then []
    else if caps[|caps| - 1].fixtureId == id then CapsTo(caps[..|caps| - 1], id) + [caps[|caps| - 1]]
    else CapsTo(caps[..|caps| - 1], id)
  }

  lemma OwnOfOne(steps: seq<Step>, id: nat)
    requires |steps| <= 1
    ensures Own(steps, id) == if |steps| == 1 && steps[0].id == id then steps else []
  {
    if |steps| == 1 { assert steps[..0] == []; }
  }

  lemma {:induction false} NoOwnDefaults(rig: Rig, fixtures: seq<Fixture>, id: nat)
    requires forall i :: 0 <= i < |fixtures| ==> fixtures[i].id != id
    ensures Own(DefaultSteps(rig, fixtures), id) == []
  {
    if fixtures == [] {
    } else {
      var front, f := fixtures[..|fixtures| - 1], fixtures[|fixtures| - 1];
      NoOwnDefaults(rig, front, id);
      OwnAppend(DefaultSteps(rig, front), DefaultStep(rig, f), id);
      OwnOfOne(DefaultStep(rig, f), id);
    }
  }

  lemma DefaultsOfOne(rig: Rig, f: Fixture)
    ensures DefaultSteps(rig, [f]) == DefaultStep(rig, f)
  {
    assert [f][..0] == [] && DefaultSteps(rig, []) == [];
  }

  lemma OwnLastDefault(rig: Rig, fixtures: seq<Fixture>, id: nat)
    requires fixtures != []
    ensures var front, f := fixtures[..|fixtures| - 1], fixtures[|fixtures| - 1];
            Own(DefaultSteps(rig, fixtures), id)
            == Own(DefaultSteps(rig, front), id) + if f.id == id then DefaultStep(rig, f) else []
  {
    var front, f := fixtures[..|fixtures| - 1], fixtures[|fixtures| - 1];
    OwnAppend(DefaultSteps(rig, front), DefaultStep(rig, f), id);
    OwnOfOne(DefaultStep(rig, f), id);
  }

  lemma {:induction false} OwnDefaults(rig: Rig, fixtures: seq<Fixture>, k: nat)
    requires k < |fixtures| && DistinctIds(fixtures)
    ensures Own(DefaultSteps(rig, fixtures), fixtures[k].id) == DefaultStep(rig, fixtures[k])
  {
    var n := |fixtures| - 1;
    OwnLastDefault(rig, fixtures, fixtures[k].id);
    if k < n {
      OwnDefaults(rig, fixtures[..n], k);
    } else {
      NoOwnDefaults(rig, fixtures[..n], fixtures[k].id);
    }
  }

  lemma FindOwn(fixtures: seq<Fixture>, k: nat)
    requires k < |fixtures| && DistinctIds(fixtures)
    ensures Find(fixtures, fixtures[k].id) == k && Find([fixtures[k]], fixtures[k].id) == 0
  {
  }

  lemma {:induction false} OwnAims(rig: Rig, fixtures: seq<Fixture>, aims: seq<AimIntent>, aiming: Aiming, k: nat)
    requires k < |fixtures| && DistinctIds(fixtures)
    ensures Own(AimSteps(rig, fixtures, aims, aiming), fixtures[k].id)
            == AimSteps(rig, [fixtures[k]], AimsTo(aims, fixtures[k].id), aiming)
  {
    if aims == [] {
    } else {
      var front, ai, id := aims[..|aims| - 1], aims[|aims| - 1], fixtures[k].id;
      OwnAims(rig, fixtures, front, aiming, k);
      FindOwn(fixtures, k);
      OwnAppend(AimSteps(rig, fixtures, front, aiming), AimStep(rig, fixtures, ai, aiming), id);
      OwnOfOne(AimStep(rig, fixtures, ai, aiming), id);
      var mine := AimsTo(aims, id);
      if ai.fixtureId == id { assert mine[..|mine| - 1] == AimsTo(front, id); }
    }
  }

  lemma {:induction false} OwnCaps(rig: Rig, fixtures: seq<Fixture>, caps: seq<CapIntent>, k: nat)
    requires k < |fixtures| && DistinctIds(fixtures) && AllPatchable(fixtures)
    ensures AllPatchable([fixtures[k]])
    ensures Own(CapSteps(rig, fixtures, caps), fixtures[k].id)
            == CapSteps(rig, [fixtures[k]], CapsTo(caps, fixtures[k].id))
  {
    assert Patchable(fixtures[k]);
    if caps == [] {
    } else {
      var front, ci, id := caps[..|caps| - 1], caps[|caps| - 1], fixtures[k].id;
      OwnCaps(rig, fixtures, front, k);
      FindOwn(fixtures, k);
      OwnAppend(CapSteps(rig, fixtures, front), CapStep(rig, fixtures, ci), id);
      OwnOfOne(CapStep(rig, fixtures, ci), id);
      var mine := CapsTo(caps, id);
      if ci.fixtureId == id { assert mine[..|mine| - 1] == CapsTo(front, id); }
    }
  }

  lemma AllStepsBelong(rig: Rig, fixtures: seq<Fixture>, o: Output, aiming: Aiming)
    requires AllPatchable(fixtures)
    ensures forall i :: 0 <= i < |AllSteps(rig, fixtures, o, aiming)| ==>
              Belongs(rig, fixtures, AllSteps(rig, fixtures, o, aiming)[i])
  {
    DefaultStepsBelong(rig, fixtures);
    AimStepsBelong(rig, fixtures, o.aims, aiming);
    CapStepsBelong(rig, fixtures, o.caps);
  }

  lemma OutsideIsUntouched(rig: Rig, f: Fixture, s: Step, u: nat, a: nat)
    requires StepOf(rig, f, s) && !InFootprint(f, u, a)
    ensures !Touches(s, u, a)
  {
  }

  /** Fixtures do not interfere: where footprints are disjoint, every byte of a
      fixture's footprint is what rendering that fixture alone, on its own
      intents, would put there. */
  lemma FixturesDoNotInterfere(rig: Rig, fixtures: seq<Fixture>, mem: seq<seq<byte>>, o: Output, aiming: Aiming,
                               k: nat, u: nat, a: nat)
    requires AllPatchable(fixtures) && DistinctIds(fixtures) && DisjointFootprints(fixtures)
    requires |mem| == |rig.modes| && u < |mem| && a < |mem[u]|
    requires k < |fixtures| && InFootprint(fixtures[k], u, a)
    ensures AllPatchable([fixtures[k]])
    ensures var id := fixtures[k].id;
            Frame(rig, fixtures, mem, o, aiming)[u][a]
            == Frame(rig, [fixtures[k]], mem, Output(CapsTo(o.caps, id), AimsTo(o.aims, id)), aiming)[u][a]
  {
    var id, steps := fixtures[k].id, AllSteps(rig, fixtures, o, aiming);
    AllStepsBelong(rig, fixtures, o, aiming);
    forall i | 0 <= i < |steps| && steps[i].id != id ensures !Touches(steps[i], u, a) {
      assert Belongs(rig, fixtures, steps[i]);
      var j :| 0 <= j < |fixtures| && StepOf(rig, fixtures[j], steps[i]);
      assert j < k ==> Apart(fixtures[j], fixtures[k]);
      assert k < j ==> Apart(fixtures[k], fixtures[j]);
      OutsideIsUntouched(rig, fixtures[j], steps[i], u, a);
    }
    var v := Reset(rig, mem)[u][a];
    OnlyOwnStepsMatter(v, steps, id, u, a);
    OwnDefaults(rig, fixtures, k);
    DefaultsOfOne(rig, fixtures[k]);
    OwnAims(rig, fixtures, o.aims, aiming, k);
    OwnCaps(rig, fixtures, o.caps, k);
    OwnAppend(DefaultSteps(rig, fixtures) + AimSteps(rig, fixtures, o.aims, aiming),
              CapSteps(rig, fixtures, o.caps), id);
    OwnAppend(DefaultSteps(rig, fixtures), AimSteps(rig, fixtures, o.aims, aiming), id);
    SteppedCell(Reset(rig, mem), steps, u, a);
    SteppedCell(Reset(rig, mem), Own(steps, id), u, a);
  }

  /** Bytes outside every footprint are zero in the fixture universes of the show
      and keep their value everywhere else. */
  lemma OutsideFootprints(rig: Rig, fixtures: seq<Fixture>, mem: seq<seq<byte>>, o: Output, aiming: Aiming,
                          u: nat, a: nat)
    requires AllPatchable(fixtures) && |mem| == |rig.modes| && u < |mem| && a < |mem[u]|
    requires forall k :: 0 <= k < |fixtures| && Rendered(rig, fixtures[k]) ==> !InFootprint(fixtures[k], u, a)
    ensures Frame(rig, fixtures, mem, o, aiming)[u][a]
            == if u < rig.universeCount && rig.modes[u] == FixtureMode then 0 else mem[u][a]
  {
    var steps := AllSteps(rig, fixtures, o, aiming);
    AllStepsBelong(rig, fixtures, o, aiming);
    forall i | 0 <= i < |steps| ensures !Touches(steps[i], u, a) {
      assert Belongs(rig, fixtures, steps[i]);
      var j :| 0 <= j < |fixtures| && StepOf(rig, fixtures[j], steps[i]);
      OutsideIsUntouched(rig, fixtures[j], steps[i], u, a);
    }
    SteppedCell(Reset(rig, mem), steps, u, a);
    UntouchedStays(Reset(rig, mem)[u][a], steps, u, a);
  }

  /** Raw universes, and those beyond the show's count, come through a frame
      unchanged whatever is patched into them. */
  lemma RawUniversesUntouched(rig: Rig, fixtures: seq<Fixture>, mem: seq<seq<byte>>, o: Output, aiming: Aiming, u: nat)
    requires AllPatchable(fixtures) && |mem| == |rig.modes| && u < |mem|
    requires u >= rig.universeCount || rig.modes[u] == RawMode
    ensures Frame(rig, fixtures, mem, o, aiming)[u] == mem[u]
  {
    forall a | 0 <= a < |mem[u]| ensures Frame(rig, fixtures, mem, o, aiming)[u][a] == mem[u][a] {
      OutsideFootprints(rig, fixtures, mem, o, aiming, u, a);
    }
  }
}
