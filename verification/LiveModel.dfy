/** Control dispatch of live_control.cpp as values: which binding an event reaches,
    what it does to the bindings and which command it gives the show. */
module LiveModel {
  import opened Bytes
  import opened Mdef
  import opened ControlTypes
  import Reals
  import Cues

  datatype ActionKind = CueFlash | CueToggle | SceneGo | SceneToggle | Master | CueLevel | ParamSet

  datatype ControlEvent = ControlEvent(kind: ControlType, id: u16, channel: byte, pressed: bool, value: real)

  datatype Binding = Binding(kind: ControlType, controlId: u16, action: ActionKind, targetId: u16, latched: bool)

  datatype Param = Param(name: seq<byte>, value: real)

  datatype Live = Live(
    bindings: seq<Binding>, params: seq<Param>, master: real, programScenes: bool, profile: Option<Controller>)

  const INITIAL: Live := Live([], [], 1.0, false, None)

  // ---- lookup ------------------------------------------------------------

  function Or8(a: byte, b: byte): byte {
    if b == 0 then a else ((a as bv8) | (b as bv8)) as int
  }

  /** `(channel << 8) | id`, byte by byte. */
  function PackChannelControlId(channel: byte, id: u16): u16 {
    256 * (Or8(channel, id / 256) as int) + id % 256
  }

  predicate PadSignificant(c: Controller, note: byte) {
    exists i :: 0 <= i < |c.pads| && c.pads[i].noteFrom <= note <= c.pads[i].noteTo &&
                c.pads[i].channelFrom != CHANNEL_AGNOSTIC
  }

  predicate FaderSignificant(c: Controller, cc: byte) {
    exists i :: 0 <= i < |c.faders| && c.faders[i].ccFrom <= cc <= c.faders[i].ccTo &&
                c.faders[i].channelFrom != CHANNEL_AGNOSTIC
  }

  /** The id an event was bound under: packed with its channel exactly when the
      controller tells its channels apart on that control. */
  function EffectiveId(profile: Option<Controller>, ev: ControlEvent): u16 {
    if profile.None? then ev.id
    else if ev.kind == Button then
      if PadSignificant(profile.value, ev.id % 256) then PackChannelControlId(ev.channel, ev.id) else ev.id
    else if ev.kind == Fader && ev.id >= 128 then
      if FaderSignificant(profile.value, (ev.id - 128) % 256) then PackChannelControlId(ev.channel, ev.id) else ev.id
    else ev.id
  }

  function Find(bindings: seq<Binding>, kind: ControlType, controlId: u16): (i: nat)
    ensures i <= |bindings|
    ensures i < |bindings| ==> bindings[i].kind == kind && bindings[i].controlId == controlId
    ensures forall j :: 0 <= j < i ==> bindings[j].kind != kind || bindings[j].controlId != controlId
  {
    if bindings == [] || (bindings[0].kind == kind && bindings[0].controlId == controlId) then 0
    else 1 + Find(bindings[1..], kind, controlId)
  }

  /** The binding an event reaches, or `|bindings|`. */
  function Reached(live: Live, ev: ControlEvent): (i: nat)
    ensures i <= |live.bindings|
  {
    Find(live.bindings, ev.kind, EffectiveId(live.profile, ev))
  }

  // ---- handling ----------------------------------------------------------

  datatype Outcome = Outcome(live: Live, command: Option<Cues.Op>)

  predicate IsToggle(a: ActionKind) {
    a == CueToggle || a == SceneToggle
  }

  function Toggled(live: Live, i: nat): Outcome
    requires i < |live.bindings| && IsToggle(live.bindings[i].action)
  {
    var b := live.bindings[i];
    Outcome(live.(bindings := live.bindings[i := b.(latched := !b.latched)]),
            Some(if b.action == CueToggle then
                   if b.latched then Cues.OpRelease(b.targetId) else Cues.OpGo(b.targetId)
                 else if b.latched then Cues.OpReleaseScene(b.targetId) else Cues.OpGoScene(b.targetId)))
  }

  function Button_(live: Live, i: nat, pressed: bool): Outcome
    requires i < |live.bindings|
  {
    var b := live.bindings[i];
    if IsToggle(b.action) then if pressed then Toggled(live, i) else Outcome(live, None)
    else if b.action == CueFlash then
      Outcome(live, Some(if pressed then Cues.OpGo(b.targetId) else Cues.OpRelease(b.targetId)))
    else if b.action == SceneGo then
      Outcome(live, Some(if pressed then Cues.OpGoScene(b.targetId) else Cues.OpReleaseScene(b.targetId)))
    else Outcome(live, None)
  }

  function Continuous(live: Live, i: nat, value: real): Outcome
    requires i < |live.bindings|
  {
    var b, v := live.bindings[i], Reals.Clamp01(value);
    if b.action == Master then Outcome(live.(master := v), None)
    else if b.action == CueLevel then Outcome(live, Some(Cues.OpManual(b.targetId, v)))
    else if b.action == ParamSet && b.targetId < |live.params| then
      Outcome(live.(params := live.params[b.targetId := live.params[b.targetId].(value := v)]), None)
    else Outcome(live, None)
  }

  function Handled(live: Live, ev: ControlEvent): Outcome {
    if ev.kind == Program then
      Outcome(live, if live.programScenes then Some(Cues.OpGoScene(ev.id)) else None)
    else
      var i := Reached(live, ev);
      if i == |live.bindings| then Outcome(live, None)
      else if ev.kind == Button then Button_(live, i, ev.pressed)
      else Continuous(live, i, ev.value)
  }

  /** What a command does to the show at time `t`. */
  function Obeyed(show: Cues.State, command: Option<Cues.Op>, t: real): Cues.State {
    match command
    case None => show
    case Some(op) => Cues.Next(show, Cues.Event(op, t))
  }

  // ---- binding -----------------------------------------------------------

  function ParamIndex(params: seq<Param>, name: seq<byte>): (i: nat)
    ensures i <= |params| && (i < |params| ==> params[i].name == name)
    ensures forall j :: 0 <= j < i ==> params[j].name != name
  {
    if params == [] || params[0].name == name then 0 else 1 + ParamIndex(params[1..], name)
  }

  function Interned(params: seq<Param>, name: seq<byte>): seq<Param> {
    if ParamIndex(params, name) < |params| then params else params + [Param(name, 0.0)]
  }

  // ---- runs --------------------------------------------------------------

  datatype Event =
    | Handle(ev: ControlEvent)
    | Bind(kind: ControlType, controlId: u16, action: ActionKind, targetId: u16)
    | BindProgram
    | Intern(name: seq<byte>)
    | SetProfile(profile: Option<Controller>)
    | Clear

  function Next(live: Live, e: Event): Live {
    match e
    case Handle(ev) => Handled(live, ev).live
    case Bind(kind, controlId, action, targetId) =>
      live.(bindings := live.bindings + [Binding(kind, controlId, action, targetId, false)])
    case BindProgram => live.(programScenes := true)
    case Intern(name) => live.(params := Interned(live.params, name))
    case SetProfile(profile) => live.(profile := profile)
    case Clear => live.(bindings := [], params := [], programScenes := false)
  }

  function Run(events: seq<Event>): Live {
    if events == [] then INITIAL else Next(Run(events[..|events| - 1]), events[|events| - 1])
  }

  /** How `e` changes the number of presses dispatched to binding `i`. */
  function Counted(live: Live, e: Event, i: nat, presses: nat): nat {
    match e
    case Clear => 0
    case Handle(ev) =>
      presses + if i < |live.bindings| && ev.kind == Button && ev.pressed && Reached(live, ev) == i then 1 else 0
    case _ => presses
  }

  /** How many presses were dispatched to binding `i` since it was bound. */
  function Presses(events: seq<Event>, i: nat): nat {
    if events == [] then 0
    else Counted(Run(events[..|events| - 1]), events[|events| - 1], i, Presses(events[..|events| - 1], i))
  }

  predicate LatchIsParity(live: Live, i: nat, presses: nat) {
    if i >= |live.bindings| then presses == 0
    else
      var b := live.bindings[i];
      b.latched == (IsToggle(b.action) && b.kind == Button && presses % 2 == 1)
  }

  lemma NextKeepsParity(live: Live, e: Event, i: nat, presses: nat)
    requires LatchIsParity(live, i, presses)
    ensures LatchIsParity(Next(live, e), i, Counted(live, e, i, presses))
  {
  }

  /** Over every run, with rebinding, profile changes and clearing anywhere in it, a
      toggle binding's latch is the parity of the presses dispatched to it since it
      was bound, and no other binding is ever latched. */
  lemma {:induction false} ToggleLatch(events: seq<Event>, i: nat)
    ensures LatchIsParity(Run(events), i, Presses(events, i))
  {
    if events == [] {
    } else {
      var n := |events| - 1;
      ToggleLatch(events[..n], i);
      NextKeepsParity(Run(events[..n]), events[n], i, Presses(events[..n], i));
    }
  }

  /** Two presses of a toggle with nothing else between undo one another's latch and
      command the cue (or scene) to start and then to stop, or the reverse. */
  lemma PressedTwice(live: Live, ev: ControlEvent)
    requires ev.kind == Button && ev.pressed && Reached(live, ev) < |live.bindings|
    requires IsToggle(live.bindings[Reached(live, ev)].action)
    ensures var once := Handled(live, ev);
            var twice := Handled(once.live, ev);
            twice.live == live && once.command.Some? && twice.command.Some? && once.command != twice.command
  {
    var i := Reached(live, ev);
    var once := Toggled(live, i).live;
    SameReach(live.bindings, once.bindings, ev.kind, EffectiveId(live.profile, ev), i);
    assert once.bindings[i := live.bindings[i]] == live.bindings;
  }

  lemma SameReach(a: seq<Binding>, b: seq<Binding>, kind: ControlType, id: u16, i: nat)
    requires |a| == |b| && i < |a| && i == Find(a, kind, id)
    requires forall j :: 0 <= j <= i ==> b[j].kind == a[j].kind && b[j].controlId == a[j].controlId
    ensures Find(b, kind, id) == i
  {
  }
}
