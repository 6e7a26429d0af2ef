/** What each channel of each fixture shows after a frame of show.cpp, whatever the
    other fixtures are asked to do: the last intent for its capability, else the
    last aim, else its default. */
module FrameShows {
  import opened Bytes
  import opened FixtureProfile
  import opened Blend
  import opened ShowControl
  import opened Render
  import opened FrameValues

  // ---- a fixture's own intents and aims ----------------------------------

  predicate Reaches(ci: CapIntent, id: nat, cap: byte) {
    ci.fixtureId == id && ci.cap == cap
  }

  /** Intent `n` is the last for that capability of fixture `id`. */
  predicate LastIntent(caps: seq<CapIntent>, id: nat, cap: byte, n: int) {
    0 <= n < |caps| && Reaches(caps[n], id, cap) && forall j :: n < j < |caps| ==> !Reaches(caps[j], id, cap)
  }

  predicate NoIntent(caps: seq<CapIntent>, id: nat, cap: byte) {
    forall j :: 0 <= j < |caps| ==> !Reaches(caps[j], id, cap)
  }

  predicate LastAimAt(aims: seq<AimIntent>, id: nat, n: int) {
    0 <= n < |aims| && aims[n].fixtureId == id && forall j :: n < j < |aims| ==> aims[j].fixtureId != id
  }

  predicate NoAimAt(aims: seq<AimIntent>, id: nat) {
    forall j :: 0 <= j < |aims| ==> aims[j].fixtureId != id
  }

  lemma {:induction false} CapsToConcat(x: seq<CapIntent>, y: seq<CapIntent>, id: nat)
    ensures CapsTo(x + y, id) == CapsTo(x, id) + CapsTo(y, id)
  {
    if y == [] {
      assert x + y == x;
    } else {
      CapsToConcat(x, y[..|y| - 1], id);
      assert (x + y)[..|x + y| - 1] == x + y[..|y| - 1];
    }
  }

  lemma {:induction false} AimsToConcat(x: seq<AimIntent>, y: seq<AimIntent>, id: nat)
    ensures AimsTo(x + y, id) == AimsTo(x, id) + AimsTo(y, id)
  {
    if y == [] {
      assert x + y == x;
    } else {
      AimsToConcat(x, y[..|y| - 1], id);
      assert (x + y)[..|x + y| - 1] == x + y[..|y| - 1];
    }
  }

  lemma {:induction false} OwnIntents(caps: seq<CapIntent>, id: nat, cap: byte)
    ensures AllFor(CapsTo(caps, id), id)
    ensures NoIntent(caps, id, cap) ==> NoneWith(CapsTo(caps, id), cap)
  {
    if caps == [] {
    } else {
      OwnIntents(caps[..|caps| - 1], id, cap);
    }
  }

  lemma {:induction false} OwnAimsAt(aims: seq<AimIntent>, id: nat)
    ensures AllAt(AimsTo(aims, id), id)
    ensures NoAimAt(aims, id) ==> AimsTo(aims, id) == []
  {
    if aims == [] {
    } else {
      OwnAimsAt(aims[..|aims| - 1], id);
    }
  }

  lemma {:induction false} OnlyIntent(ci: CapIntent)
    ensures CapsTo([ci], ci.fixtureId) == [ci]
  {
    assert [ci][..0] == [] && CapsTo([], ci.fixtureId) == [];
  }

  lemma {:induction false} OnlyAim(ai: AimIntent)
    ensures AimsTo([ai], ai.fixtureId) == [ai]
  {
    assert [ai][..0] == [] && AimsTo([], ai.fixtureId) == [];
  }

  lemma {:induction false} SplitAtIntent(caps: seq<CapIntent>, id: nat, cap: byte, n: nat)
      returns (front: seq<CapIntent>, rest: seq<CapIntent>)
    requires LastIntent(caps, id, cap, n)
    ensures CapsTo(caps, id) == front + [caps[n]] + rest && AllFor(rest, id) && NoneWith(rest, cap)
  {
    front, rest := CapsTo(caps[..n], id), CapsTo(caps[n + 1..], id);
    assert caps == caps[..n] + [caps[n]] + caps[n + 1..];
    CapsToConcat(caps[..n] + [caps[n]], caps[n + 1..], id);
    CapsToConcat(caps[..n], [caps[n]], id);
    OnlyIntent(caps[n]);
    OwnIntents(caps[n + 1..], id, cap);
  }

  lemma {:induction false} SplitAtAim(aims: seq<AimIntent>, id: nat, n: nat) returns (front: seq<AimIntent>)
    requires LastAimAt(aims, id, n)
    ensures AimsTo(aims, id) == front + [aims[n]]
  {
    front := AimsTo(aims[..n], id);
    assert aims == aims[..n] + [aims[n]] + aims[n + 1..];
    AimsToConcat(aims[..n] + [aims[n]], aims[n + 1..], id);
    AimsToConcat(aims[..n], [aims[n]], id);
    OnlyAim(aims[n]);
    OwnAimsAt(aims[n + 1..], id);
  }

  // ---- one cell ----------------------------------------------------------

  /** A checked show whose fixtures all have room in these buffers. */
  ghost predicate Rigged(rig: Rig, fixtures: seq<Fixture>, mem: seq<seq<byte>>) {
    AllPatchable(fixtures) && DistinctIds(fixtures) && DisjointFootprints(fixtures) && |mem| == |rig.modes| &&
    forall k :: 0 <= k < |fixtures| && Rendered(rig, fixtures[k]) ==> HasRoom(mem, fixtures[k])
  }

  /** Fixture `k` is rendered, and `i` is the first channel of its capability and
      shares no offset. */
  ghost predicate Watched(rig: Rig, fixtures: seq<Fixture>, k: int, i: nat) {
    0 <= k < |fixtures| && Placed(rig, fixtures[k], i) &&
    FirstWith(fixtures[k].profile.channels, fixtures[k].profile.channels[i].cap, i)
  }

  lemma {:induction false} OffsetInside(f: Fixture, i: nat, off: nat)
    requires Wellformed(f.profile) && i < |f.profile.channels| && OffsetOf(f.profile.channels[i], off)
    ensures off < f.profile.footprint as int
  {
    assert ChannelOk(f.profile.channels[i], f.profile.footprint);
  }

  lemma {:induction false} CellAlone(rig: Rig, fixtures: seq<Fixture>, mem: seq<seq<byte>>, o: Output, aiming: Aiming, k: int, i: nat, off: nat)
    requires Rigged(rig, fixtures, mem) && Watched(rig, fixtures, k, i)
    requires OffsetOf(fixtures[k].profile.channels[i], off)
    ensures HasRoom(mem, fixtures[k]) && off < fixtures[k].profile.footprint as int && AllPatchable([fixtures[k]])
    ensures var f := fixtures[k];
            Frame(rig, fixtures, mem, o, aiming)[f.universe][f.base + off]
            == Frame(rig, [f], mem, Output(CapsTo(o.caps, f.id), AimsTo(o.aims, f.id)), aiming)[f.universe][f.base + off]
  {
    var f := fixtures[k];
    OffsetInside(f, i, off);
    FixturesDoNotInterfere(rig, fixtures, mem, o, aiming, k, f.universe, f.base + off);
  }

  // ---- what the channel shows --------------------------------------------

  /** Buffer `u` holds what a level of channel `i`'s capability wrote there. */
  predicate HoldsLevel(out: seq<seq<byte>>, f: Fixture, i: nat, norm01: real, v: byte, off: nat)
    requires i < |f.profile.channels|
  {
    f.universe < |out| && f.base + off < |out[f.universe]| &&
    out[f.universe][f.base + off]
    == WrittenTo(v, f.base, CapWrites(f.profile, f.profile.channels[i].cap, norm01), f.base + off)
  }

  lemma {:induction false} ShownByBytes(out: seq<seq<byte>>, f: Fixture, i: nat, norm01: real, v: byte, w: byte)
    requires i < |f.profile.channels| && FirstWith(f.profile.channels, f.profile.channels[i].cap, i)
    requires HoldsLevel(out, f, i, norm01, v, f.profile.channels[i].coarse as int)
    requires f.profile.channels[i].fine != 255 ==> HoldsLevel(out, f, i, norm01, w, f.profile.channels[i].fine as int)
    ensures ShownIn(out, f, f.profile.channels[i], norm01)
  {
    var c := f.profile.channels[i];
    if c.coarse != c.fine { LevelWritten(f.profile, c.cap, norm01, f.base, i, v, w); }
  }

  /** The last intent for a capability, when linear, is the level its channel shows. */
  lemma {:induction false} FrameShowsIntent(rig: Rig, fixtures: seq<Fixture>, mem: seq<seq<byte>>, o: Output, aiming: Aiming,
                         k: int, i: nat, n: nat)
    requires Rigged(rig, fixtures, mem) && Watched(rig, fixtures, k, i)
    requires LastIntent(o.caps, fixtures[k].id, fixtures[k].profile.channels[i].cap, n) && IsLinear(o.caps[n])
    ensures ShownIn(Frame(rig, fixtures, mem, o, aiming), fixtures[k], fixtures[k].profile.channels[i], o.caps[n].norm01)
  {
    var f := fixtures[k];
    var c, out := f.profile.channels[i], Frame(rig, fixtures, mem, o, aiming);
    var v := IntentLevel(rig, fixtures, mem, o, aiming, k, i, n, c.coarse as int);
    var w: byte := 0;
    if c.fine != 255 { w := IntentLevel(rig, fixtures, mem, o, aiming, k, i, n, c.fine as int); }
    ShownByBytes(out, f, i, o.caps[n].norm01, v, w);
  }

  lemma {:induction false} IntentLevel(rig: Rig, fixtures: seq<Fixture>, mem: seq<seq<byte>>, o: Output, aiming: Aiming,
                    k: int, i: nat, n: nat, off: nat) returns (v: byte)
    requires Rigged(rig, fixtures, mem) && Watched(rig, fixtures, k, i)
    requires LastIntent(o.caps, fixtures[k].id, fixtures[k].profile.channels[i].cap, n) && IsLinear(o.caps[n])
    requires OffsetOf(fixtures[k].profile.channels[i], off)
    ensures HoldsLevel(Frame(rig, fixtures, mem, o, aiming), fixtures[k], i, o.caps[n].norm01, v, off)
  {
    v := IntentByte(rig, fixtures, mem, o, aiming, k, i, n, off);
    FrameSizes(rig, fixtures, mem, o, aiming, fixtures[k].universe);
  }

  lemma {:induction false} IntentByte(rig: Rig, fixtures: seq<Fixture>, mem: seq<seq<byte>>, o: Output, aiming: Aiming,
                   k: int, i: nat, n: nat, off: nat) returns (v: byte)
    requires Rigged(rig, fixtures, mem) && Watched(rig, fixtures, k, i)
    requires LastIntent(o.caps, fixtures[k].id, fixtures[k].profile.channels[i].cap, n)
    requires OffsetOf(fixtures[k].profile.channels[i], off)
    ensures HasRoom(mem, fixtures[k]) && off < fixtures[k].profile.footprint as int
    ensures var f := fixtures[k];
            Frame(rig, fixtures, mem, o, aiming)[f.universe][f.base + off]
            == WrittenTo(v, f.base, IntentWrites(f.profile, o.caps[n]), f.base + off)
  {
    var f := fixtures[k];
    var front, rest := SplitAtIntent(o.caps, f.id, f.profile.channels[i].cap, n);
    CellAlone(rig, fixtures, mem, o, aiming, k, i, off);
    v := IntentCell(rig, f, mem, front, o.caps[n], rest, AimsTo(o.aims, f.id), aiming, i, off);
  }

  /** An offset holds what an intent wrote there. */
  ghost predicate HoldsIntent(out: seq<seq<byte>>, f: Fixture, ci: CapIntent, v: byte, off: nat) {
    Wellformed(f.profile) && f.universe < |out| && f.base + off < |out[f.universe]| &&
    out[f.universe][f.base + off] == WrittenTo(v, f.base, IntentWrites(f.profile, ci), f.base + off)
  }

  lemma {:induction false} IntentHeld(rig: Rig, fixtures: seq<Fixture>, mem: seq<seq<byte>>, o: Output, aiming: Aiming,
                                      k: int, i: nat, n: nat, off: nat) returns (v: byte)
    requires Rigged(rig, fixtures, mem) && Watched(rig, fixtures, k, i)
    requires LastIntent(o.caps, fixtures[k].id, fixtures[k].profile.channels[i].cap, n)
    requires OffsetOf(fixtures[k].profile.channels[i], off)
    ensures HoldsIntent(Frame(rig, fixtures, mem, o, aiming), fixtures[k], o.caps[n], v, off)
  {
    v := IntentByte(rig, fixtures, mem, o, aiming, k, i, n, off);
    FrameSizes(rig, fixtures, mem, o, aiming, fixtures[k].universe);
  }

  lemma {:induction false} NamedHeld(out: seq<seq<byte>>, f: Fixture, i: nat, ci: CapIntent, v: byte, j: int)
    requires i < |f.profile.channels| && f.base + f.profile.footprint <= 512
    requires HoldsIntent(out, f, ci, v, f.profile.channels[i].coarse as int)
    requires FirstWith(f.profile.channels, ci.cap, i)
    requires ci.sel.hasName && FirstNamed(f.profile, i, ci.sel.rangeName, j)
    ensures ByteShowsRange(out, f, i, j, ci.norm01)
  {
    var shown := seq(512, a => v);
    NamedRangeShown(f.profile, ci.cap, ci.sel.rangeName, ci.norm01, shown, f.base, i, j);
    AppliedCell(shown, f.base, IntentWrites(f.profile, ci), f.base + f.profile.channels[i].coarse as int);
  }

  lemma {:induction false} ListedHeld(out: seq<seq<byte>>, f: Fixture, i: nat, ci: CapIntent, v: byte, ps: seq<nat>)
    requires i < |f.profile.channels| && f.base + f.profile.footprint <= 512
    requires HoldsIntent(out, f, ci, v, f.profile.channels[i].coarse as int)
    requires FirstWith(f.profile.channels, ci.cap, i)
    requires !ci.sel.hasName && 0 <= ci.sel.rangeIndex < |ps| <= 256 && Listing(ps, f.profile.ranges, i)
    ensures ByteShowsRange(out, f, i, ps[ci.sel.rangeIndex], ci.norm01)
  {
    var shown := seq(512, a => v);
    ListedRangeShown(f.profile, ci.cap, ci.sel.rangeIndex, ci.norm01, shown, f.base, i, ps);
    AppliedCell(shown, f.base, IntentWrites(f.profile, ci), f.base + f.profile.channels[i].coarse as int);
  }

  /** The last intent for a capability, when it names a range, shows the first range
      so named on the channel. */
  lemma {:induction false} FrameShowsNamed(rig: Rig, fixtures: seq<Fixture>, mem: seq<seq<byte>>, o: Output, aiming: Aiming,
                        k: int, i: nat, n: nat, j: int)
    requires Rigged(rig, fixtures, mem) && Watched(rig, fixtures, k, i)
    requires LastIntent(o.caps, fixtures[k].id, fixtures[k].profile.channels[i].cap, n)
    requires o.caps[n].sel.hasName && FirstNamed(fixtures[k].profile, i, o.caps[n].sel.rangeName, j)
    ensures ByteShowsRange(Frame(rig, fixtures, mem, o, aiming), fixtures[k], i, j, o.caps[n].norm01)
  {
    var v := IntentHeld(rig, fixtures, mem, o, aiming, k, i, n, fixtures[k].profile.channels[i].coarse as int);
    NamedHeld(Frame(rig, fixtures, mem, o, aiming), fixtures[k], i, o.caps[n], v, j);
  }

  /** When it selects by position, it shows that one of the channel's own ranges. */
  lemma {:induction false} FrameShowsListed(rig: Rig, fixtures: seq<Fixture>, mem: seq<seq<byte>>, o: Output, aiming: Aiming,
                         k: int, i: nat, n: nat, ps: seq<nat>)
    requires Rigged(rig, fixtures, mem) && Watched(rig, fixtures, k, i)
    requires LastIntent(o.caps, fixtures[k].id, fixtures[k].profile.channels[i].cap, n)
    requires !o.caps[n].sel.hasName && 0 <= o.caps[n].sel.rangeIndex < |ps| <= 256
    requires Listing(ps, fixtures[k].profile.ranges, i)
    ensures ByteShowsRange(Frame(rig, fixtures, mem, o, aiming), fixtures[k], i, ps[o.caps[n].sel.rangeIndex],
                           o.caps[n].norm01)
  {
    var v := IntentHeld(rig, fixtures, mem, o, aiming, k, i, n, fixtures[k].profile.channels[i].coarse as int);
    ListedHeld(Frame(rig, fixtures, mem, o, aiming), fixtures[k], i, o.caps[n], v, ps);
  }

  /** The coarse byte of channel `i` shows range `j`. */
  ghost predicate ByteShowsRange(mem: seq<seq<byte>>, f: Fixture, i: int, j: int, value01: real) {
    0 <= i < |f.profile.channels| && 0 <= j < |f.profile.ranges| && f.universe < |mem| &&
    f.base + f.profile.channels[i].coarse < |mem[f.universe]| &&
    ShowsRange(f.profile.ranges[j], mem[f.universe][f.base + f.profile.channels[i].coarse], value01)
  }

  /** Without intents for it, pan or tilt of a head shows what its last aim asks. */
  lemma {:induction false} FrameShowsAim(rig: Rig, fixtures: seq<Fixture>, mem: seq<seq<byte>>, o: Output, aiming: Aiming,
                      k: int, i: nat, n: nat)
    requires Rigged(rig, fixtures, mem) && Watched(rig, fixtures, k, i) && fixtures[k].isHead
    requires fixtures[k].profile.channels[i].cap == 10 || fixtures[k].profile.channels[i].cap == 11
    requires NoIntent(o.caps, fixtures[k].id, fixtures[k].profile.channels[i].cap)
    requires LastAimAt(o.aims, fixtures[k].id, n)
    ensures var f := fixtures[k]; var c := f.profile.channels[i]; var aim := aiming(f.head, o.aims[n]);
            ShownIn(Frame(rig, fixtures, mem, o, aiming), f, c, if c.cap == 10 then aim.0 else aim.1)
  {
    var f := fixtures[k];
    var c, out := f.profile.channels[i], Frame(rig, fixtures, mem, o, aiming);
    var v := AimByte(rig, fixtures, mem, o, aiming, k, i, n, c.coarse as int);
    var w: byte := 0;
    if c.fine != 255 { w := AimByte(rig, fixtures, mem, o, aiming, k, i, n, c.fine as int); }
    ShownByBytes(out, f, i, AimLevel(c.cap, aiming(f.head, o.aims[n])), v, w);
  }

  lemma {:induction false} AimByte(rig: Rig, fixtures: seq<Fixture>, mem: seq<seq<byte>>, o: Output, aiming: Aiming,
                k: int, i: nat, n: nat, off: nat) returns (v: byte)
    requires Rigged(rig, fixtures, mem) && Watched(rig, fixtures, k, i) && fixtures[k].isHead
    requires fixtures[k].profile.channels[i].cap in {PAN, TILT}
    requires NoIntent(o.caps, fixtures[k].id, fixtures[k].profile.channels[i].cap)
    requires LastAimAt(o.aims, fixtures[k].id, n) && OffsetOf(fixtures[k].profile.channels[i], off)
    ensures var f := fixtures[k];
            HoldsLevel(Frame(rig, fixtures, mem, o, aiming), f, i,
                       AimLevel(f.profile.channels[i].cap, aiming(f.head, o.aims[n])), v, off)
  {
    var f := fixtures[k];
    var front := SplitAtAim(o.aims, f.id, n);
    OwnIntents(o.caps, f.id, f.profile.channels[i].cap);
    CellAlone(rig, fixtures, mem, o, aiming, k, i, off);
    v := AimCell(rig, f, mem, CapsTo(o.caps, f.id), front, o.aims[n], aiming, i, off);
    FrameSizes(rig, fixtures, mem, o, aiming, f.universe);
  }

  /** No intent and no aim is for that capability of `f`. */
  predicate Unasked(o: Output, f: Fixture, cap: byte) {
    NoIntent(o.caps, f.id, cap) && ((cap != 10 && cap != 11) || !f.isHead || NoAimAt(o.aims, f.id))
  }

  predicate HoldsByte(out: seq<seq<byte>>, f: Fixture, off: byte, b: byte) {
    f.universe < |out| && f.base + off < |out[f.universe]| && out[f.universe][f.base + off] == b
  }

  /** A channel that no intent and no aim is for holds its default, with a zero fine
      byte. */
  lemma {:induction false} FrameShowsDefault(rig: Rig, fixtures: seq<Fixture>, mem: seq<seq<byte>>, o: Output,
                                             aiming: Aiming, k: int, i: nat)
    requires Rigged(rig, fixtures, mem) && Watched(rig, fixtures, k, i)
    requires Unasked(o, fixtures[k], fixtures[k].profile.channels[i].cap)
    requires fixtures[k].profile.channels[i].coarse != fixtures[k].profile.channels[i].fine
    ensures var c := fixtures[k].profile.channels[i]; var out := Frame(rig, fixtures, mem, o, aiming);
            HoldsByte(out, fixtures[k], c.coarse, c.defaultValue) &&
            (c.fine != 255 ==> HoldsByte(out, fixtures[k], c.fine, 0))
  {
    var c := fixtures[k].profile.channels[i];
    DefaultByte(rig, fixtures, mem, o, aiming, k, i, c.coarse);
    if c.fine != 255 { DefaultByte(rig, fixtures, mem, o, aiming, k, i, c.fine); }
  }

  lemma {:induction false} OwnUnasked(o: Output, rig: Rig, f: Fixture, i: nat)
    requires Placed(rig, f, i) && Unasked(o, f, f.profile.channels[i].cap)
    ensures Idle(rig, f, i, CapsTo(o.caps, f.id), AimsTo(o.aims, f.id))
  {
    OwnIntents(o.caps, f.id, f.profile.channels[i].cap);
    OwnAimsAt(o.aims, f.id);
  }

  lemma {:induction false} DefaultByte(rig: Rig, fixtures: seq<Fixture>, mem: seq<seq<byte>>, o: Output,
                                       aiming: Aiming, k: int, i: nat, off: byte)
    requires Rigged(rig, fixtures, mem) && Watched(rig, fixtures, k, i)
    requires Unasked(o, fixtures[k], fixtures[k].profile.channels[i].cap)
    requires fixtures[k].profile.channels[i].coarse != fixtures[k].profile.channels[i].fine
    requires OffsetOf(fixtures[k].profile.channels[i], off as int)
    ensures HoldsByte(Frame(rig, fixtures, mem, o, aiming), fixtures[k], off,
                      DefaultAt(fixtures[k].profile.channels[i], off as int))
  {
    var f := fixtures[k];
    OwnUnasked(o, rig, f, i);
    CellAlone(rig, fixtures, mem, o, aiming, k, i, off as int);
    DefaultCell(rig, f, mem, CapsTo(o.caps, f.id), AimsTo(o.aims, f.id), aiming, i, off as int);
    FrameSizes(rig, fixtures, mem, o, aiming, f.universe);
  }
}
