/** What a control event does to the show's cues, the bindings and the parameters,
    read off the binding it reaches. */
module LiveCommands {
  import opened Bytes
  import opened ControlTypes
  import opened LiveModel
  import opened CueShape
  import Cues
  import Mdef

  // ---- which binding -----------------------------------------------------

  predicate Bound(b: Binding, kind: ControlType, id: u16) {
    b.kind == kind && b.controlId == id
  }

  /** Binding `i` is the first for the event's kind and id. */
  ghost predicate Hits(live: Live, ev: ControlEvent, i: int) {
    0 <= i < |live.bindings| && Bound(live.bindings[i], ev.kind, EffectiveId(live.profile, ev)) &&
    forall j :: 0 <= j < i ==> !Bound(live.bindings[j], ev.kind, EffectiveId(live.profile, ev))
  }

  lemma HitIsReached(live: Live, ev: ControlEvent, i: int)
    requires Hits(live, ev, i)
    ensures Reached(live, ev) == i
  {
    var id := EffectiveId(live.profile, ev);
    var k := Find(live.bindings, ev.kind, id);
    assert k <= i;
    assert k < i ==> !Bound(live.bindings[k], ev.kind, id);
  }

  /** The controller tells channels apart on the pad of that note. */
  predicate PadTold(c: Mdef.Controller, note: int) {
    exists i :: 0 <= i < |c.pads| && c.pads[i].noteFrom as int <= note <= c.pads[i].noteTo as int &&
                c.pads[i].channelFrom != 0xFF
  }

  predicate FaderTold(c: Mdef.Controller, cc: int) {
    exists i :: 0 <= i < |c.faders| && c.faders[i].ccFrom as int <= cc <= c.faders[i].ccTo as int &&
                c.faders[i].channelFrom != 0xFF
  }

  /** Note `id` for a button, controller `id - 128` for a fader. */
  predicate ChannelMatters(profile: Option<Mdef.Controller>, ev: ControlEvent) {
    profile.Some? &&
    ((ev.kind == Button && PadTold(profile.value, ev.id as int)) ||
     (ev.kind == Fader && FaderTold(profile.value, ev.id as int - 128)))
  }

  /** An event as a MIDI message makes it reaches bindings made under its own id, and
      where its controller tells channels apart under 256 times the channel plus it. */
  lemma IdOfEvent(profile: Option<Mdef.Controller>, ev: ControlEvent)
    requires if ev.kind == Fader then 128 <= ev.id < 256 else ev.id < 128
    ensures EffectiveId(profile, ev) as int == ev.id as int + if ChannelMatters(profile, ev) then 256 * (ev.channel as int) else 0
  {
    if profile.Some? {
      var c := profile.value;
      if ev.kind == Button { assert PadSignificant(c, ev.id) <==> PadTold(c, ev.id as int); }
      if ev.kind == Fader { assert FaderSignificant(c, ev.id - 128) <==> FaderTold(c, ev.id as int - 128); }
    }
  }

  /** Only the latch of binding `i` differs. */
  predicate OnlyLatch(before: Live, after: Live, i: nat, latched: bool)
    requires i < |before.bindings|
  {
    after == before.(bindings := before.bindings[i := before.bindings[i].(latched := latched)])
  }

  // ---- buttons -----------------------------------------------------------

  /** The show after a control event at time `t`. */
  function ShowAfter(live: Live, show: Cues.State, ev: ControlEvent, t: real): Cues.State {
    Obeyed(show, Handled(live, ev).command, t)
  }

  /** An unlatched toggle's press starts its cue and latches it; a latched one's
      releases the cue and unlatches it. No other cue is touched. */
  lemma ToggledCue(live: Live, show: Cues.State, ev: ControlEvent, t: real, i: int, c: nat)
    requires ev.kind == Button && ev.pressed && Hits(live, ev, i) && c < |show.cues|
    requires live.bindings[i].action == CueToggle
    ensures var b := live.bindings[i]; var after := ShowAfter(live, show, ev, t);
            OnlyLatch(live, Handled(live, ev).live, i, !b.latched) && |after.cues| == |show.cues| &&
            (if c != b.targetId as int then after.cues[c] == show.cues[c]
             else if b.latched then after.cues[c].released || !after.cues[c].active
             else RunningSince(after.cues[c], t))
  {
    HitIsReached(live, ev, i);
  }

  /** The same for a scene's cues. */
  lemma ToggledScene(live: Live, show: Cues.State, ev: ControlEvent, t: real, i: int, c: nat)
    requires ev.kind == Button && ev.pressed && Hits(live, ev, i) && c < |show.cues|
    requires live.bindings[i].action == SceneToggle && live.bindings[i].targetId < |show.scenes|
    ensures var b := live.bindings[i]; var after := ShowAfter(live, show, ev, t);
            OnlyLatch(live, Handled(live, ev).live, i, !b.latched) && |after.cues| == |show.cues| &&
            (if c !in show.scenes[b.targetId] then after.cues[c] == show.cues[c]
             else if b.latched then after.cues[c].released || !after.cues[c].active
             else RunningSince(after.cues[c], t))
  {
    HitIsReached(live, ev, i);
    SceneStarts(show, live.bindings[i].targetId as int, t, c);
    SceneStops(show, live.bindings[i].targetId as int, t, c);
  }

  /** A flash runs its cue while held. */
  lemma FlashedCue(live: Live, show: Cues.State, ev: ControlEvent, t: real, i: int, c: nat)
    requires ev.kind == Button && Hits(live, ev, i) && c < |show.cues|
    requires live.bindings[i].action == CueFlash
    ensures var after := ShowAfter(live, show, ev, t);
            Handled(live, ev).live == live && |after.cues| == |show.cues| &&
            (if c != live.bindings[i].targetId as int then after.cues[c] == show.cues[c]
             else if ev.pressed then RunningSince(after.cues[c], t)
             else after.cues[c].released || !after.cues[c].active)
  {
    HitIsReached(live, ev, i);
  }

  /** And a scene button its scene. */
  lemma FlashedScene(live: Live, show: Cues.State, ev: ControlEvent, t: real, i: int, c: nat)
    requires ev.kind == Button && Hits(live, ev, i) && c < |show.cues|
    requires live.bindings[i].action == SceneGo && live.bindings[i].targetId < |show.scenes|
    ensures var after := ShowAfter(live, show, ev, t);
            Handled(live, ev).live == live && |after.cues| == |show.cues| &&
            (if c !in show.scenes[live.bindings[i].targetId] then after.cues[c] == show.cues[c]
             else if ev.pressed then RunningSince(after.cues[c], t)
             else after.cues[c].released || !after.cues[c].active)
  {
    HitIsReached(live, ev, i);
    SceneStarts(show, live.bindings[i].targetId as int, t, c);
    SceneStops(show, live.bindings[i].targetId as int, t, c);
  }

  predicate Idle(action: ActionKind, ev: ControlEvent) {
    ev.kind == Button &&
    (((action == CueToggle || action == SceneToggle) && !ev.pressed) ||
     action == Master || action == CueLevel || action == ParamSet)
  }

  /** Letting go of a toggle, or hitting a button bound to a level, does nothing; so
      does an event no binding is for. */
  lemma Unmoved(live: Live, show: Cues.State, ev: ControlEvent, t: real)
    requires ev.kind != Program
    requires forall i :: Hits(live, ev, i) ==> Idle(live.bindings[i].action, ev)
    ensures Handled(live, ev) == Outcome(live, None) && ShowAfter(live, show, ev, t) == show
  {
    var i := Reached(live, ev);
    if i < |live.bindings| { assert Hits(live, ev, i); }
  }

  /** A program change runs the scene it numbers, once programs select scenes. */
  lemma ProgramSelects(live: Live, show: Cues.State, ev: ControlEvent, t: real, c: nat)
    requires ev.kind == Program && c < |show.cues| && ev.id < |show.scenes|
    ensures var after := ShowAfter(live, show, ev, t);
            Handled(live, ev).live == live && |after.cues| == |show.cues| &&
            if live.programScenes && c in show.scenes[ev.id] then RunningSince(after.cues[c], t)
            else after.cues[c] == show.cues[c]
  {
    SceneStarts(show, ev.id as int, t, c);
  }

  // ---- levels ------------------------------------------------------------

  /** `value` held within [0, 1]. */
  function Held(value: real): real {
    if value <= 0.0 then 0.0 else if value >= 1.0 then 1.0 else value
  }

  /** A fader, pressure or pitch wheel sets the master, its cue's level from now on,
      or its parameter, and nothing else. */
  lemma LevelSet(live: Live, show: Cues.State, ev: ControlEvent, t: real, x: real, i: int, c: nat)
    requires ev.kind == Fader || ev.kind == Aftertouch || ev.kind == PitchBend
    requires Hits(live, ev, i) && c < |show.cues|
    ensures var b, v := live.bindings[i], Held(ev.value);
            var after, live' := ShowAfter(live, show, ev, t), Handled(live, ev).live;
            |after.cues| == |show.cues| &&
            (if b.action == Master then after == show && live' == live.(master := v)
             else if b.action == CueLevel then
               live' == live &&
               (if c != b.targetId as int then after.cues[c] == show.cues[c]
                else Cues.WeightAndAlive(after.cues[c], x) == Cues.Weight(v, v > 0.0))
             else if b.action == ParamSet && b.targetId < |live.params| then
               after == show &&
               live' == live.(params := live.params[b.targetId := Param(live.params[b.targetId].name, v)])
             else after == show && live' == live)
  {
    HitIsReached(live, ev, i);
    if live.bindings[i].targetId < |show.cues| {
      ManualHolds(show, live.bindings[i].targetId as int, Held(ev.value), x);
    }
  }
}
