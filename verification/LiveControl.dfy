/** LiveControl of live_control.cpp: bindings, parameters and latches updated in
    place, driving the show's cues. */
module LiveControl {
  import opened Bytes
  import opened Mdef
  import opened ControlTypes
  import opened LiveModel
  import Cues
  import ShowControl

  class Control {
    const show: ShowControl.ShowController
    var bindings: seq<Binding>
    var params: seq<Param>
    var master: real
    var programScenes: bool
    var profile: Option<Controller>

    function State(): Live
      reads this
    {
      Live(bindings, params, master, programScenes, profile)
    }

    constructor (show: ShowControl.ShowController)
      ensures this.show == show && State() == INITIAL
    {
      this.show := show;
      bindings, params, master, programScenes, profile := [], [], 1.0, false, None;
    }

    method SetControllerProfile(p: Option<Controller>)
      modifies this`profile
      ensures State() == Next(old(State()), SetProfile(p))
    {
      profile := p;
    }

    method BindButton(controlId: u16, action: ActionKind, targetId: u16)
      modifies this`bindings
      ensures State() == Next(old(State()), Bind(Button, controlId, action, targetId))
    {
      bindings := bindings + [Binding(Button, controlId, action, targetId, false)];
    }

    method BindContinuous(kind: ControlType, controlId: u16, action: ActionKind, targetId: u16)
      modifies this`bindings
      ensures State() == Next(old(State()), Bind(kind, controlId, action, targetId))
    {
      bindings := bindings + [Binding(kind, controlId, action, targetId, false)];
    }

    method BindProgramChanges()
      modifies this`programScenes
      ensures State() == Next(old(State()), BindProgram)
    {
      programScenes := true;
    }

    /** Finds or creates the slot of a name. */
    method InternParam(name: seq<byte>) returns (i: nat)
      modifies this`params
      ensures State() == Next(old(State()), Intern(name))
      ensures i == ParamIndex(old(params), name) < |params| && params[i].name == name
    {
      i := 0;
      while i < |params|
        invariant i <= |params| && forall j :: 0 <= j < i ==> params[j].name != name
      {
        if params[i].name == name { return; }
        i := i + 1;
      }
      params := params + [Param(name, 0.0)];
    }

    method ParamValue(name: seq<byte>) returns (v: real)
      ensures v == if ParamIndex(params, name) < |params| then params[ParamIndex(params, name)].value else 0.0
    {
      for i := 0 to |params|
        invariant forall j :: 0 <= j < i ==> params[j].name != name
      {
        if params[i].name == name { return params[i].value; }
      }
      return 0.0;
    }

    method ClearAll()
      modifies this
      ensures State() == Next(old(State()), Clear)
    {
      bindings, params, programScenes := [], [], false;
    }

    method FindBinding(kind: ControlType, controlId: u16) returns (i: nat)
      ensures i == Find(bindings, kind, controlId)
    {
      i := 0;
      while i < |bindings|
        invariant i <= |bindings|
        invariant forall j :: 0 <= j < i ==> bindings[j].kind != kind || bindings[j].controlId != controlId
      {
        if bindings[i].kind == kind && bindings[i].controlId == controlId { return; }
        i := i + 1;
      }
    }

    method HandleEvent(ev: ControlEvent, t: real)
      modifies this, show
      ensures State() == Handled(old(State()), ev).live
      ensures show.St() == Obeyed(old(show.St()), Handled(old(State()), ev).command, t)
    {
      if ev.kind == Program {
        if programScenes { show.GoScene(ev.id, t); }
        return;
      }
      var i := FindBinding(ev.kind, EffectiveId(profile, ev));
      if i == |bindings| { return; }
      if ev.kind == Button {
        HandleButton(i, ev.pressed, t);
      } else {
        HandleContinuous(i, ev.value, t);
      }
    }

    method HandleButton(i: nat, pressed: bool, t: real)
      requires i < |bindings|
      modifies this`bindings, show
      ensures State() == Button_(old(State()), i, pressed).live
      ensures show.St() == Obeyed(old(show.St()), Button_(old(State()), i, pressed).command, t)
    {
      var b := bindings[i];
      if b.action == CueFlash {
        if pressed { show.Go(b.targetId, t); } else { show.Release(b.targetId, t); }
      } else if b.action == CueToggle {
        if pressed {
          if b.latched { show.Release(b.targetId, t); } else { show.Go(b.targetId, t); }
          bindings := bindings[i := b.(latched := !b.latched)];
        }
      } else if b.action == SceneGo {
        if pressed { show.GoScene(b.targetId, t); } else { show.ReleaseScene(b.targetId, t); }
      } else if b.action == SceneToggle {
        if pressed {
          if b.latched { show.ReleaseScene(b.targetId, t); } else { show.GoScene(b.targetId, t); }
          bindings := bindings[i := b.(latched := !b.latched)];
        }
      }
    }

    method HandleContinuous(i: nat, value: real, ghost t: real)
      requires i < |bindings|
      modifies this`params, this`master, show
      ensures State() == Continuous(old(State()), i, value).live
      ensures show.St() == Obeyed(old(show.St()), Continuous(old(State()), i, value).command, t)
    {
      var v := value;
      if v < 0.0 { v := 0.0; }
      if v > 1.0 { v := 1.0; }
      match bindings[i].action {
        case Master => master := v;
        case CueLevel => show.SetManualLevel(bindings[i].targetId, v);
        case ParamSet =>
          var k := bindings[i].targetId;
          if k < |params| { params := params[k := params[k].(value := v)]; }
        case _ =>
      }
    }
  }
}
