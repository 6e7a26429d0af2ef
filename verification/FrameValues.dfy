/** What a frame of show.cpp leaves on a fixture's channels: the level of the last
    intent for a capability, else the last aim, else the default. */
module FrameValues {
  import opened Bytes
  import opened FixtureProfile
  import opened Blend
  import opened ShowControl
  import opened Render

  // ---- one channel among others ------------------------------------------

  predicate OffsetOf(c: ChannelMap, off: int) {
    off == c.coarse as int || (c.fine != 255 && off == c.fine as int)
  }

  /** Channel `i` shares no offset with another channel. */
  ghost predicate OnItsOwn(channels: seq<ChannelMap>, i: nat)
    requires i < |channels|
  {
    forall j, off :: 0 <= j < |channels| && j != i && OffsetOf(channels[j], off) ==> !OffsetOf(channels[i], off)
  }

  predicate WritesOnly(ws: seq<Write>, c: ChannelMap) {
    forall k :: 0 <= k < |ws| ==> OffsetOf(c, ws[k].offset as int)
  }

  lemma CapOffsets(p: Profile, cap: byte, norm01: real)
    ensures var i := ChannelIndex(p.channels, cap);
            if i == |p.channels| then CapWrites(p, cap, norm01) == []
            else WritesOnly(CapWrites(p, cap, norm01), p.channels[i])
  {
  }

  lemma IntentOffsets(p: Profile, ci: CapIntent)
    requires Wellformed(p)
    ensures var i := ChannelIndex(p.channels, ci.cap);
            if i == |p.channels| then IntentWrites(p, ci) == [] else WritesOnly(IntentWrites(p, ci), p.channels[i])
  {
    CapOffsets(p, ci.cap, ci.norm01);
  }

  /** Writes for another channel leave an offset of channel `i` alone. */
  lemma OtherChannelLeaves(channels: seq<ChannelMap>, i: nat, j: nat, ws: seq<Write>, v: byte, base: nat, off: nat)
    requires i < |channels| && j < |channels| && i != j && OnItsOwn(channels, i)
    requires WritesOnly(ws, channels[j]) && OffsetOf(channels[i], off)
    ensures WrittenTo(v, base, ws, base + off) == v
  {
    forall k | 0 <= k < |ws| ensures base + ws[k].offset as int != base + off {
      assert OffsetOf(channels[j], ws[k].offset as int);
    }
    NotWrittenTo(v, base, ws, base + off);
  }

  // ---- steps in a row ----------------------------------------------------

  lemma {:induction false} SteppedConcat(v: byte, x: seq<Step>, y: seq<Step>, u: nat, a: nat)
    ensures SteppedTo(v, x + y, u, a) == SteppedTo(SteppedTo(v, x, u, a), y, u, a)
  {
    if y == [] {
      assert x + y == x;
    } else {
      var n := |y| - 1;
      SteppedConcat(v, x, y[..n], u, a);
      assert (x + y)[..|x + y| - 1] == x + y[..n];
    }
  }

  lemma CapStepsPush(rig: Rig, fixtures: seq<Fixture>, x: seq<CapIntent>, ci: CapIntent)
    requires AllPatchable(fixtures)
    ensures CapSteps(rig, fixtures, x + [ci]) == CapSteps(rig, fixtures, x) + CapStep(rig, fixtures, ci)
  {
    assert (x + [ci])[..|x|] == x;
  }

  lemma AimStepsPush(rig: Rig, fixtures: seq<Fixture>, x: seq<AimIntent>, ai: AimIntent, aiming: Aiming)
    ensures AimSteps(rig, fixtures, x + [ai], aiming)
            == AimSteps(rig, fixtures, x, aiming) + AimStep(rig, fixtures, ai, aiming)
  {
    assert (x + [ai])[..|x|] == x;
  }

  // ---- one fixture alone -------------------------------------------------

  /** Fixture `f` is rendered and has room, and its channel `i` shares no offset. */
  ghost predicate Placed(rig: Rig, f: Fixture, i: nat) {
    Patchable(f) && Rendered(rig, f) && i < |f.profile.channels| && OnItsOwn(f.profile.channels, i)
  }

  predicate AllFor(caps: seq<CapIntent>, id: nat) {
    forall k :: 0 <= k < |caps| ==> caps[k].fixtureId == id
  }

  predicate NoneWith(caps: seq<CapIntent>, cap: byte) {
    forall k :: 0 <= k < |caps| ==> caps[k].cap != cap
  }

  // What the intents, the aims and the defaults of fixture `f` alone do to the byte
  // at its offset `off`.

  function CapsOn(rig: Rig, f: Fixture, caps: seq<CapIntent>, v: byte, off: nat): byte
    requires AllPatchable([f])
  {
    SteppedTo(v, CapSteps(rig, [f], caps), f.universe, f.base + off)
  }

  function AimsOn(rig: Rig, f: Fixture, aims: seq<AimIntent>, aiming: Aiming, v: byte, off: nat): byte {
    SteppedTo(v, AimSteps(rig, [f], aims, aiming), f.universe, f.base + off)
  }

  function DefaultsOn(rig: Rig, f: Fixture, v: byte, off: nat): byte {
    SteppedTo(v, DefaultSteps(rig, [f]), f.universe, f.base + off)
  }

  function CapOn(rig: Rig, f: Fixture, ci: CapIntent, v: byte, off: nat): byte
    requires AllPatchable([f])
  {
    SteppedTo(v, CapStep(rig, [f], ci), f.universe, f.base + off)
  }

  function AimOn(rig: Rig, f: Fixture, ai: AimIntent, aiming: Aiming, v: byte, off: nat): byte {
    SteppedTo(v, AimStep(rig, [f], ai, aiming), f.universe, f.base + off)
  }

  lemma CapsOnPush(rig: Rig, f: Fixture, x: seq<CapIntent>, ci: CapIntent, v: byte, off: nat)
    requires AllPatchable([f])
    ensures CapsOn(rig, f, x + [ci], v, off) == CapOn(rig, f, ci, CapsOn(rig, f, x, v, off), off)
  {
    CapStepsPush(rig, [f], x, ci);
    SteppedConcat(v, CapSteps(rig, [f], x), CapStep(rig, [f], ci), f.universe, f.base + off);
  }

  lemma AimsOnPush(rig: Rig, f: Fixture, x: seq<AimIntent>, ai: AimIntent, aiming: Aiming, v: byte, off: nat)
    ensures AimsOn(rig, f, x + [ai], aiming, v, off) == AimOn(rig, f, ai, aiming, AimsOn(rig, f, x, aiming, v, off), off)
  {
    AimStepsPush(rig, [f], x, ai, aiming);
    SteppedConcat(v, AimSteps(rig, [f], x, aiming), AimStep(rig, [f], ai, aiming), f.universe, f.base + off);
  }

  lemma CapsOnNone(rig: Rig, f: Fixture, v: byte, off: nat)
    requires AllPatchable([f])
    ensures CapsOn(rig, f, [], v, off) == v
  {
  }

  lemma LastApart<T>(x: seq<T>, y: seq<T>, front: seq<T>, last: T)
    requires y != [] && front == y[..|y| - 1] && last == y[|y| - 1]
    ensures y == front + [last] && x + y == (x + front) + [last]
  {
  }

  lemma {:induction false} CapsOnConcat(rig: Rig, f: Fixture, x: seq<CapIntent>, y: seq<CapIntent>, v: byte, off: nat)
    requires AllPatchable([f])
    ensures CapsOn(rig, f, x + y, v, off) == CapsOn(rig, f, y, CapsOn(rig, f, x, v, off), off)
  {
    if y == [] {
      assert x + y == x;
      CapsOnNone(rig, f, CapsOn(rig, f, x, v, off), off);
    } else {
      var front, last := y[..|y| - 1], y[|y| - 1];
      CapsOnConcat(rig, f, x, front, v, off);
      LastApart(x, y, front, last);
      CapsOnPush(rig, f, x + front, last, v, off);
      CapsOnPush(rig, f, front, last, CapsOn(rig, f, x, v, off), off);
    }
  }

  lemma OneStepped(v: byte, s: Step, u: nat, a: nat)
    requires s.universe == u
    ensures SteppedTo(v, [s], u, a) == WrittenTo(v, s.base, s.ws, a)
  {
    assert [s][..0] == [];
  }

  lemma FindOnly(f: Fixture)
    ensures Find([f], f.id) == 0
  {
  }

  lemma {:induction false} CapOnOwn(rig: Rig, f: Fixture, ci: CapIntent, v: byte, off: nat)
    requires AllPatchable([f]) && Wellformed(f.profile) && Rendered(rig, f) && ci.fixtureId == f.id
    ensures CapOn(rig, f, ci, v, off) == WrittenTo(v, f.base, IntentWrites(f.profile, ci), f.base + off)
  {
    FindOnly(f);
    OneStepped(v, Step(f.id, f.universe, f.base, IntentWrites(f.profile, ci)), f.universe, f.base + off);
  }

  lemma {:induction false} AimOnOwn(rig: Rig, f: Fixture, ai: AimIntent, aiming: Aiming, v: byte, off: nat)
    requires Rendered(rig, f) && ai.fixtureId == f.id && f.isHead
    ensures AimOn(rig, f, ai, aiming, v, off)
            == WrittenTo(v, f.base, AimWrites(f, aiming(f.head, ai)), f.base + off)
  {
    FindOnly(f);
    OneStepped(v, Step(f.id, f.universe, f.base, AimWrites(f, aiming(f.head, ai))), f.universe, f.base + off);
  }

  lemma {:induction false} OneDefault(rig: Rig, f: Fixture, s: Step)
    requires Rendered(rig, f) && s == Step(f.id, f.universe, f.base, DefaultWrites(f.profile.channels))
    ensures DefaultSteps(rig, [f]) == [s]
  {
    DefaultsOfOne(rig, f);
  }

  lemma {:induction false} DefaultsOnOne(rig: Rig, f: Fixture, v: byte, off: nat)
    requires Rendered(rig, f)
    ensures DefaultsOn(rig, f, v, off) == WrittenTo(v, f.base, DefaultWrites(f.profile.channels), f.base + off)
  {
    var s := Step(f.id, f.universe, f.base, DefaultWrites(f.profile.channels));
    OneDefault(rig, f, s);
    OneStepped(v, s, f.universe, f.base + off);
  }

  /** Intents for other capabilities leave the channel alone. */
  lemma OtherIntentLeaves(rig: Rig, f: Fixture, i: nat, ci: CapIntent, v: byte, off: nat)
    requires Placed(rig, f, i) && OffsetOf(f.profile.channels[i], off)
    requires ci.fixtureId == f.id && ci.cap != f.profile.channels[i].cap
    ensures AllPatchable([f]) && CapOn(rig, f, ci, v, off) == v
  {
    CapOnOwn(rig, f, ci, v, off);
    IntentOffsets(f.profile, ci);
    var j := ChannelIndex(f.profile.channels, ci.cap);
    if j < |f.profile.channels| {
      OtherChannelLeaves(f.profile.channels, i, j, IntentWrites(f.profile, ci), v, f.base, off);
    }
  }

  lemma OthersSplit(caps: seq<CapIntent>, id: nat, cap: byte, front: seq<CapIntent>, last: CapIntent)
    requires AllFor(caps, id) && NoneWith(caps, cap) && caps == front + [last]
    ensures AllFor(front, id) && NoneWith(front, cap) && last.fixtureId == id && last.cap != cap
  {
    assert caps[|front|] == last && forall k :: 0 <= k < |front| ==> caps[k] == front[k];
  }

  lemma {:induction false} OthersLeave(rig: Rig, f: Fixture, i: nat, caps: seq<CapIntent>, v: byte, off: nat)
    requires Placed(rig, f, i) && OffsetOf(f.profile.channels[i], off)
    requires AllFor(caps, f.id) && NoneWith(caps, f.profile.channels[i].cap)
    ensures AllPatchable([f]) && CapsOn(rig, f, caps, v, off) == v
  {
    if caps == [] {
    } else {
      var front, last := caps[..|caps| - 1], caps[|caps| - 1];
      assert caps == front + [last];
      OthersSplit(caps, f.id, f.profile.channels[i].cap, front, last);
      OthersLeave(rig, f, i, front, v, off);
      OtherIntentLeaves(rig, f, i, last, v, off);
      CapsOnPush(rig, f, front, last, v, off);
    }
  }

  predicate IsLinear(ci: CapIntent) {
    !ci.sel.hasName && ci.sel.rangeIndex < 0
  }

  predicate HasRoom(mem: seq<seq<byte>>, f: Fixture) {
    f.universe < |mem| && f.base + f.profile.footprint <= |mem[f.universe]|
  }

  /** Defaults, then aims, then intents. */
  lemma CellOfAlone(rig: Rig, f: Fixture, mem: seq<seq<byte>>, o: Output, aiming: Aiming, off: nat)
    requires AllPatchable([f]) && |mem| == |rig.modes| && HasRoom(mem, f) && off < f.profile.footprint as int
    ensures var v := Reset(rig, mem)[f.universe][f.base + off];
            Frame(rig, [f], mem, o, aiming)[f.universe][f.base + off]
            == CapsOn(rig, f, o.caps, AimsOn(rig, f, o.aims, aiming, DefaultsOn(rig, f, v, off), off), off)
  {
    var u, at := f.universe, f.base + off;
    var v := Reset(rig, mem)[u][at];
    var ds, as_, cs := DefaultSteps(rig, [f]), AimSteps(rig, [f], o.aims, aiming), CapSteps(rig, [f], o.caps);
    SteppedCell(Reset(rig, mem), ds + as_ + cs, u, at);
    SteppedConcat(v, ds + as_, cs, u, at);
    SteppedConcat(v, ds, as_, u, at);
  }

  // ---- values ------------------------------------------------------------

  lemma OneWrite(v: byte, base: nat, x: Write)
    ensures WrittenTo(v, base, [x], base + x.offset as int) == x.value
  {
  }

  lemma TwoWrites(v: byte, w: byte, base: nat, x: Write, y: Write)
    requires x.offset != y.offset
    ensures WrittenTo(v, base, [x, y], base + x.offset as int) == x.value
    ensures WrittenTo(w, base, [x, y], base + y.offset as int) == y.value
  {
    assert [x, y][..1] == [x];
    OneWrite(v, base, x);
  }

  /** A capability's own writes settle its channel's bytes, whatever was there. */
  lemma LevelWritten(p: Profile, cap: byte, norm01: real, base: nat, i: nat, v: byte, w: byte)
    requires FirstWith(p.channels, cap, i) && p.channels[i].coarse != p.channels[i].fine
    ensures var c, ws := p.channels[i], CapWrites(p, cap, norm01);
            ShowsLevel(c, WrittenTo(v, base, ws, base + c.coarse as int),
                       if c.fine == 255 then 0 else WrittenTo(w, base, ws, base + c.fine as int), norm01)
  {
    FirstIsIndex(p.channels, cap, i);
    var c := p.channels[i];
    if c.fine == NO_FINE {
      var b := if Inverted(c) then 255 - Scale8(norm01) else Scale8(norm01);
      Shows8(c, norm01);
      OneWrite(v, base, Write(c.coarse, b));
    } else {
      var x := if Inverted(c) then 65535 - Scale16(norm01) else Scale16(norm01);
      Shows16(c, norm01, x);
      TwoWrites(v, w, base, Write(c.coarse, x / 256), Write(c.fine, x % 256));
    }
  }

  /** The byte at `off` once `front`, then `ci`, then intents for other capabilities
      have been applied. */
  lemma LastIntentCell(rig: Rig, f: Fixture, i: nat, front: seq<CapIntent>, ci: CapIntent, rest: seq<CapIntent>,
                       v: byte, off: nat)
    requires Placed(rig, f, i) && OffsetOf(f.profile.channels[i], off)
    requires ci.fixtureId == f.id && AllFor(rest, f.id)
    requires NoneWith(rest, f.profile.channels[i].cap)
    ensures AllPatchable([f])
    ensures CapsOn(rig, f, front + [ci] + rest, v, off)
            == WrittenTo(CapsOn(rig, f, front, v, off), f.base, IntentWrites(f.profile, ci), f.base + off)
  {
    CapsOnConcat(rig, f, front + [ci], rest, v, off);
    CapsOnPush(rig, f, front, ci, v, off);
    CapOnOwn(rig, f, ci, CapsOn(rig, f, front, v, off), off);
    OthersLeave(rig, f, i, rest, CapsOn(rig, f, front + [ci], v, off), off);
  }

  /** The two bytes of a channel in these buffers show a level. */
  predicate ShownIn(mem: seq<seq<byte>>, f: Fixture, c: ChannelMap, norm01: real) {
    f.universe < |mem| && Shown(mem[f.universe], f.base, c, norm01)
  }

  /** The value a cell of the frame has before the fixture's intents. */
  function BeforeIntents(rig: Rig, f: Fixture, mem: seq<seq<byte>>, aims: seq<AimIntent>, aiming: Aiming, off: nat): byte
    requires |mem| == |rig.modes| && HasRoom(mem, f) && off < f.profile.footprint as int
  {
    AimsOn(rig, f, aims, aiming, DefaultsOn(rig, f, Reset(rig, mem)[f.universe][f.base + off], off), off)
  }

  lemma FrameSizes(rig: Rig, fixtures: seq<Fixture>, mem: seq<seq<byte>>, o: Output, aiming: Aiming, u: nat)
    requires AllPatchable(fixtures) && |mem| == |rig.modes| && u < |mem|
    ensures |Frame(rig, fixtures, mem, o, aiming)| == |mem| && |Frame(rig, fixtures, mem, o, aiming)[u]| == |mem[u]|
  {
  }

  lemma IntentCell(rig: Rig, f: Fixture, mem: seq<seq<byte>>, front: seq<CapIntent>, ci: CapIntent,
                   rest: seq<CapIntent>, aims: seq<AimIntent>, aiming: Aiming, i: nat, off: nat) returns (v: byte)
    requires Placed(rig, f, i) && |mem| == |rig.modes| && HasRoom(mem, f)
    requires ci.fixtureId == f.id && AllFor(rest, f.id) && NoneWith(rest, ci.cap)
    requires ci.cap == f.profile.channels[i].cap
    requires OffsetOf(f.profile.channels[i], off) && off < f.profile.footprint as int
    ensures AllPatchable([f])
    ensures Frame(rig, [f], mem, Output(front + [ci] + rest, aims), aiming)[f.universe][f.base + off]
            == WrittenTo(v, f.base, IntentWrites(f.profile, ci), f.base + off)
  {
    var before := BeforeIntents(rig, f, mem, aims, aiming, off);
    CellOfAlone(rig, f, mem, Output(front + [ci] + rest, aims), aiming, off);
    LastIntentCell(rig, f, i, front, ci, rest, before, off);
    v := CapsOn(rig, f, front, before, off);
  }

  lemma WrittenConcat(v: byte, base: nat, x: seq<Write>, y: seq<Write>, a: nat)
    ensures WrittenTo(v, base, x + y, a) == WrittenTo(WrittenTo(v, base, x, a), base, y, a)
  {
    if y == [] {
      assert x + y == x;
    } else {
      assert (x + y)[..|x + y| - 1] == x + y[..|y| - 1];
      WrittenConcat(v, base, x, y[..|y| - 1], a);
    }
  }

  // ---- aims --------------------------------------------------------------

  /** Applying some capability's level leaves an offset of another channel alone. */
  lemma OtherCapLeaves(p: Profile, i: nat, cap: byte, norm01: real, v: byte, base: nat, off: nat)
    requires i < |p.channels| && OnItsOwn(p.channels, i) && OffsetOf(p.channels[i], off) && cap != p.channels[i].cap
    ensures WrittenTo(v, base, CapWrites(p, cap, norm01), base + off) == v
  {
    CapOffsets(p, cap, norm01);
    var j := ChannelIndex(p.channels, cap);
    if j < |p.channels| { OtherChannelLeaves(p.channels, i, j, CapWrites(p, cap, norm01), v, base, off); }
  }

  /** Of a pan and a tilt only the one of the channel's own capability matters. */
  lemma AimWritesApart(f: Fixture, i: nat, aim: (real, real), v: byte, off: nat)
    requires i < |f.profile.channels| && OnItsOwn(f.profile.channels, i) && OffsetOf(f.profile.channels[i], off)
    ensures var c, a := f.profile.channels[i], f.base + off;
            WrittenTo(v, f.base, AimWrites(f, aim), a)
            == if c.cap == PAN then WrittenTo(v, f.base, CapWrites(f.profile, PAN, aim.0), a)
               else if c.cap == TILT then WrittenTo(v, f.base, CapWrites(f.profile, TILT, aim.1), a)
               else v
  {
    var p := f.profile;
    var pans, tilts := CapWrites(p, PAN, aim.0), CapWrites(p, TILT, aim.1);
    WrittenConcat(v, f.base, pans, tilts, f.base + off);
    var w := WrittenTo(v, f.base, pans, f.base + off);
    if p.channels[i].cap != TILT { OtherCapLeaves(p, i, TILT, aim.1, w, f.base, off); }
    if p.channels[i].cap != PAN { OtherCapLeaves(p, i, PAN, aim.0, v, f.base, off); }
  }

  predicate AllAt(aims: seq<AimIntent>, id: nat) {
    forall k :: 0 <= k < |aims| ==> aims[k].fixtureId == id
  }

  /** Aims leave a channel of neither pan nor tilt alone. */
  lemma {:induction false} AimsLeave(rig: Rig, f: Fixture, i: nat, aims: seq<AimIntent>, aiming: Aiming, v: byte, off: nat)
    requires Placed(rig, f, i) && OffsetOf(f.profile.channels[i], off) && AllAt(aims, f.id)
    requires f.isHead ==> f.profile.channels[i].cap != PAN && f.profile.channels[i].cap != TILT
    ensures AimsOn(rig, f, aims, aiming, v, off) == v
  {
    if aims == [] {
    } else {
      var front, last := aims[..|aims| - 1], aims[|aims| - 1];
      assert aims == front + [last] && AllAt(front, f.id);
      AimsLeave(rig, f, i, front, aiming, v, off);
      AimsOnPush(rig, f, front, last, aiming, v, off);
      AimLeaves(rig, f, i, last, aiming, v, off);
    }
  }

  lemma AimLeaves(rig: Rig, f: Fixture, i: nat, ai: AimIntent, aiming: Aiming, v: byte, off: nat)
    requires Placed(rig, f, i) && OffsetOf(f.profile.channels[i], off) && ai.fixtureId == f.id
    requires f.isHead ==> f.profile.channels[i].cap != PAN && f.profile.channels[i].cap != TILT
    ensures AimOn(rig, f, ai, aiming, v, off) == v
  {
    if f.isHead {
      AimOnOwn(rig, f, ai, aiming, v, off);
      AimWritesApart(f, i, aiming(f.head, ai), v, off);
    } else {
      FindOnly(f);
    }
  }

  /** The level an aim asks of pan or tilt. */
  function AimLevel(cap: byte, aim: (real, real)): real {
    if cap == 10 then aim.0 else aim.1
  }

  /** Without intents for it, an offset of pan or tilt holds what the last aim wrote. */
  lemma AimCell(rig: Rig, f: Fixture, mem: seq<seq<byte>>, caps: seq<CapIntent>, front: seq<AimIntent>, ai: AimIntent,
                aiming: Aiming, i: nat, off: nat) returns (v: byte)
    requires Placed(rig, f, i) && |mem| == |rig.modes| && HasRoom(mem, f) && f.isHead && ai.fixtureId == f.id
    requires AllFor(caps, f.id) && NoneWith(caps, f.profile.channels[i].cap)
    requires f.profile.channels[i].cap in {PAN, TILT}
    requires OffsetOf(f.profile.channels[i], off) && off < f.profile.footprint as int
    ensures AllPatchable([f])
    ensures var cap := f.profile.channels[i].cap;
            Frame(rig, [f], mem, Output(caps, front + [ai]), aiming)[f.universe][f.base + off]
            == WrittenTo(v, f.base, CapWrites(f.profile, cap, AimLevel(cap, aiming(f.head, ai))), f.base + off)
  {
    CellOfAlone(rig, f, mem, Output(caps, front + [ai]), aiming, off);
    OthersLeave(rig, f, i, caps, BeforeIntents(rig, f, mem, front + [ai], aiming, off), off);
    var start := DefaultsOn(rig, f, Reset(rig, mem)[f.universe][f.base + off], off);
    AimsOnPush(rig, f, front, ai, aiming, start, off);
    v := AimsOn(rig, f, front, aiming, start, off);
    AimOnOwn(rig, f, ai, aiming, v, off);
    AimWritesApart(f, i, aiming(f.head, ai), v, off);
  }

  // ---- defaults ----------------------------------------------------------

  /** An offset of channel `i` after all defaults. */
  lemma {:induction false} DefaultWritten(channels: seq<ChannelMap>, n: nat, i: nat, v: byte, base: nat, off: nat)
    requires i < n <= |channels| && OnItsOwn(channels, i) && OffsetOf(channels[i], off)
    requires channels[i].coarse != channels[i].fine
    ensures WrittenTo(v, base, DefaultWrites(channels[..n]), base + off)
            == if off == channels[i].coarse as int then channels[i].defaultValue else 0
  {
    var c := channels[n - 1];
    DefaultLast(channels, n, v, base, off);
    if i < n - 1 {
      DefaultWritten(channels, n - 1, i, v, base, off);
      assert !OffsetOf(c, off) by { if OffsetOf(c, off) { assert OffsetOf(channels[n - 1], off); } }
    }
  }

  lemma DefaultLast(channels: seq<ChannelMap>, n: nat, v: byte, base: nat, off: nat)
    requires 0 < n <= |channels|
    ensures var c := channels[n - 1];
            WrittenTo(v, base, DefaultWrites(channels[..n]), base + off)
            == if c.fine != 255 && off == c.fine as int then 0
               else if off == c.coarse as int then c.defaultValue
               else WrittenTo(v, base, DefaultWrites(channels[..n - 1]), base + off)
  {
    var c := channels[n - 1];
    assert channels[..n][..n - 1] == channels[..n - 1];
    var before := DefaultWrites(channels[..n - 1]);
    var own := [Write(c.coarse, c.defaultValue)] + if c.fine == NO_FINE then [] else [Write(c.fine, 0)];
    assert DefaultWrites(channels[..n]) == before + own;
    WrittenConcat(v, base, before, own, base + off);
    WrittenPair(WrittenTo(v, base, before, base + off), base, c, base + off);
  }

  lemma WrittenPair(v: byte, base: nat, c: ChannelMap, a: nat)
    ensures var own := [Write(c.coarse, c.defaultValue)] + if c.fine == NO_FINE then [] else [Write(c.fine, 0)];
            WrittenTo(v, base, own, a)
            == if c.fine != 255 && a == base + c.fine as int then 0
               else if a == base + c.coarse as int then c.defaultValue
               else v
  {
    var x := [Write(c.coarse, c.defaultValue)];
    assert x[..0] == [];
    assert WrittenTo(v, base, x, a) == if a == base + c.coarse as int then c.defaultValue else v;
    if c.fine == NO_FINE {
      assert x + [] == x;
    } else {
      assert (x + [Write(c.fine, 0)])[..1] == x;
    }
  }

  /** Fixture `f` alone, asked nothing of its channel `i`. */
  ghost predicate Idle(rig: Rig, f: Fixture, i: nat, caps: seq<CapIntent>, aims: seq<AimIntent>) {
    Placed(rig, f, i) &&
    AllFor(caps, f.id) && NoneWith(caps, f.profile.channels[i].cap) && AllAt(aims, f.id) &&
    (f.isHead && aims != [] ==> f.profile.channels[i].cap != PAN && f.profile.channels[i].cap != TILT)
  }

  lemma IdleAims(rig: Rig, f: Fixture, i: nat, caps: seq<CapIntent>, aims: seq<AimIntent>, aiming: Aiming, v: byte, off: nat)
    requires Idle(rig, f, i, caps, aims) && OffsetOf(f.profile.channels[i], off)
    ensures AimsOn(rig, f, aims, aiming, v, off) == v
  {
    if aims != [] { AimsLeave(rig, f, i, aims, aiming, v, off); }
  }

  /** What the defaults leave at an offset of channel `i`. */
  function DefaultAt(c: ChannelMap, off: nat): byte {
    if off == c.coarse as int then c.defaultValue else 0
  }

  lemma DefaultsSettle(rig: Rig, f: Fixture, i: nat, v: byte, off: nat)
    requires Placed(rig, f, i) && OffsetOf(f.profile.channels[i], off)
    requires f.profile.channels[i].coarse != f.profile.channels[i].fine
    ensures DefaultsOn(rig, f, v, off) == DefaultAt(f.profile.channels[i], off)
  {
    var channels := f.profile.channels;
    DefaultsOnOne(rig, f, v, off);
    DefaultWritten(channels, |channels|, i, v, f.base, off);
    assert channels[..|channels|] == channels;
  }

  /** Without intents or aims for it, an offset of a channel holds its default. */
  lemma {:induction false} DefaultCell(rig: Rig, f: Fixture, mem: seq<seq<byte>>, caps: seq<CapIntent>,
                                       aims: seq<AimIntent>, aiming: Aiming, i: nat, off: nat)
    requires |mem| == |rig.modes| && HasRoom(mem, f) && off < f.profile.footprint as int
    requires Idle(rig, f, i, caps, aims) && OffsetOf(f.profile.channels[i], off)
    requires f.profile.channels[i].coarse != f.profile.channels[i].fine
    ensures AllPatchable([f])
    ensures Frame(rig, [f], mem, Output(caps, aims), aiming)[f.universe][f.base + off]
            == DefaultAt(f.profile.channels[i], off)
  {
    CellOfAlone(rig, f, mem, Output(caps, aims), aiming, off);
    OthersLeave(rig, f, i, caps, BeforeIntents(rig, f, mem, aims, aiming, off), off);
    var v := Reset(rig, mem)[f.universe][f.base + off];
    IdleAims(rig, f, i, caps, aims, aiming, DefaultsOn(rig, f, v, off), off);
    DefaultsSettle(rig, f, i, v, off);
  }
}
